/**
 One VirtualLog client (virtual_log/core.py). Its cached chain may be any installed version, and other
 coroutines of the process, as well as other clients, run at every await.
 */
module VirtualLogClient {
  import opened Wrappers
  import opened LogChains
  import opened Register
  import opened VirtualLogProtocol
  import opened VirtualLogTheorems
  import opened VirtualLogNetwork

  datatype Failure =
    | LogletSealed
    | LogletUnavailable
    | ChainUnavailable
    | MetaStoreUnavailable
    | InvalidArgument
    | OutsideRange
    | PositionUnavailable

  datatype Result<+T> = Ok(value: T) | Err(error: Failure)

  datatype VirtualLogEntry = VirtualLogEntry(position: nat, command: LogCommand, segmentId: string, localPosition: nat)

  // ---- What the answers mean -----------------------------------------------------------------

  /** Some acknowledged append of the command has this position. */
  ghost predicate AckedAt(s: State, position: nat, command: LogCommand) {
    exists a :: a in s.acks && a.position == position && a.command == command
  }

  /** A sealed tail of the active segment of version `v`: above all that went to segments up to that one. */
  ghost predicate SealedThrough(s: State, v: nat, tail: nat) {
    && 0 < v <= |s.chains| && |s.windows| == |s.chains| && s.chains[v - 1].segments != []
    && s.chains[v - 1].Active().virtualStart <= tail
    && tail - s.chains[v - 1].Active().virtualStart in LogletOf(s, s.chains[v - 1].Active().segmentId).sealedTails
    && (forall a :: a in s.acks ==> 0 < a.version <= |s.windows| && (KnownTo(s, v, a) ==> a.position < tail))
  }

  /** Everything acknowledged below `bound` in a segment that version `v` knows has been trimmed. */
  ghost predicate DiscardedBelow(s: State, v: nat, bound: int) {
    && 0 < v <= |s.windows|
    && (forall a :: a in s.acks ==>
          && 0 < a.version <= |s.windows|
          && (KnownTo(s, v, a) && a.position < bound ==> a.local < LogletOf(s, a.segmentId).trimmed))
  }

  /** The k-th segment placed, as far as a chain up to `high` reaches, has an established entry at local `q`. */
  ghost predicate EntryAtPlace(s: State, high: nat, k: nat, q: nat) {
    && k < high <= |s.placed|
    && q in LogletOf(s, s.placed[k].segmentId).issued && q < LogletOf(s, s.placed[k].segmentId).established
    && (k + 1 < high ==> s.placed[k].start + q < s.placed[k + 1].start)
  }

  /**
   No entry of [from, to) established before the read, in a segment version `v` lists or has dropped, is
   passed over unless discarded.
   */
  ghost predicate NothingPassed(s: State, t: State, v: nat, from: int, to: int) {
    0 < v <= |s.windows| && Accounted(s, t, s.windows[v - 1].high, from, to)
  }

  ghost predicate Accounted(s: State, t: State, high: nat, from: int, to: int) {
    forall k: nat, q: nat :: EntryAtPlace(s, high, k, q) && from <= s.placed[k].start + q < to ==>
      q < LogletOf(t, s.placed[k].segmentId).discarded
  }

  /** The entry lies where the chain puts its segment's local position. */
  ghost predicate EntryFits(s: State, chain: LogChain, e: VirtualLogEntry) {
    && (exists i :: 0 <= i < |chain.segments| && EntryIn(chain.segments[i], e))
    && e.localPosition in LogletOf(s, e.segmentId).issued
    && LogletOf(s, e.segmentId).issued[e.localPosition] == e.command
  }

  ghost predicate EntryIn(segment: LogSegment, e: VirtualLogEntry) {
    && segment.segmentId == e.segmentId
    && e.position == segment.virtualStart + e.localPosition && segment.Contains(e.position)
  }

  /** The request discards nothing at or above the virtual position `limit`. */
  ghost predicate RequestBelow(s: State, q: TrimRequest, limit: int) {
    exists k :: 0 <= k < |s.placed| && s.placed[k].segmentId == q.segmentId && s.placed[k].start + q.local <= limit
  }

  ghost predicate RequestEstablished(s: State, q: TrimRequest) {
    q.local <= LogletOf(s, q.segmentId).established
  }

  ghost predicate DroppedBelow(s: State, d: LogSegment, limit: int) {
    FullyTrimmed(s, d) && d.virtualStop.value <= limit
  }

  function FirstVersion(initial: LogSegment): VersionedLogChain {
    VersionedLogChain(1, Some(LogChain([initial])))
  }

  function NextVersion(snapshot: VersionedLogChain, chain: LogChain): VersionedLogChain {
    VersionedLogChain(snapshot.version + 1, Some(chain))
  }

  // ---- Snapshots -------------------------------------------------------------------------------

  ghost predicate Listing(snapshot: VersionedLogChain) {
    snapshot.chain.Some? && snapshot.chain.value.segments != []
  }

  ghost function ActiveOf(snapshot: VersionedLogChain): LogSegment
    requires Listing(snapshot)
  {
    snapshot.chain.value.Active()
  }

  ghost function ActiveId(snapshot: VersionedLogChain): string
    requires Listing(snapshot)
  {
    ActiveOf(snapshot).segmentId
  }

  /** Where one chain is installed, the register holds one that lists segments. */
  lemma RegisterLists(s: State, snapshot: VersionedLogChain)
    requires Inv(s) && Installed(s, snapshot)
    ensures Listing(snapshot) && Listing(RegisterOf(s)) && Installed(s, RegisterOf(s))
    ensures ActiveId(RegisterOf(s)) == ActiveId(snapshot) ==>
      ActiveOf(RegisterOf(s)).virtualStart == ActiveOf(snapshot).virtualStart
  {
    hide Inv;
    SnapshotFacts(s, snapshot);
    SnapshotFacts(s, RegisterOf(s));
    var j := SegmentFacts(s, snapshot, |snapshot.chain.value.segments| - 1);
    var k := SegmentFacts(s, RegisterOf(s), |RegisterOf(s).chain.value.segments| - 1);
    if ActiveId(RegisterOf(s)) == ActiveId(snapshot) {
      SamePlace(s, j, k);
    }
  }

  lemma SamePlace(s: State, j: nat, k: nat)
    requires Inv(s) && j < |s.placed| && k < |s.placed| && s.placed[j].segmentId == s.placed[k].segmentId
    ensures j == k
  {
    hide WindowsFit, AcksFit, DroppedTrimmed, HistorySteps, ContractsHold, EndedSealed;
  }

  lemma SnapshotFacts(s: State, snapshot: VersionedLogChain)
    requires Inv(s) && Installed(s, snapshot)
    ensures snapshot.chain.Some? && snapshot.chain.value.Valid()
    ensures |s.windows| == |s.chains| && s.chains[snapshot.version - 1] == snapshot.chain.value
  {
    hide Inv;
    SameLengths(s);
    ChainsValid(s, snapshot.version - 1);
  }

  /** Segment `i` of an installed chain is a placed segment; its stop, if any, is a sealed tail. */
  lemma SegmentFacts(s: State, snapshot: VersionedLogChain, i: nat) returns (k: nat)
    requires Inv(s) && Installed(s, snapshot) && i < |snapshot.chain.value.segments|
    ensures |s.windows| == |s.chains| && k == s.windows[snapshot.version - 1].low + i
    ensures k < s.windows[snapshot.version - 1].high <= |s.placed|
    ensures var x := snapshot.chain.value.segments[i];
      && x.segmentId == s.placed[k].segmentId && x.virtualStart == s.placed[k].start
      && (x.virtualStop.Some? ==>
            && k + 1 < s.windows[snapshot.version - 1].high && x.virtualStop.value == s.placed[k + 1].start
            && x.virtualStart <= x.virtualStop.value
            && x.virtualStop.value - x.virtualStart <= LogletOf(s, x.segmentId).established)
      && (x.virtualStop.None? ==> k + 1 == s.windows[snapshot.version - 1].high)
  {
    hide ContractsHold, AcksFit, DroppedTrimmed, HistorySteps;
    SameLengths(s);
    var v := snapshot.version - 1;
    Lists(s, v, i);
    k := s.windows[v].low + i;
    LogletContract(s, s.placed[k].segmentId);
    if k + 1 < s.windows[v].high {
      assert EndedSealed(s, k);
    }
  }

  lemma ExtendedValid(chain: LogChain, next: NewLogletConfiguration, tail: nat)
    requires chain.Valid() && next.segmentId != ""
    ensures Extended(chain, next, tail).Valid() <==> !ListedIn(chain, next.segmentId)
  {
    var d := Extended(chain, next, tail);
    var n := |chain.segments|;
    assert forall i :: 0 <= i < n - 1 ==> d.segments[i] == chain.segments[i];
    assert d.segments[n - 1] == chain.segments[n - 1].(virtualStop := d.segments[n - 1].virtualStop);
    if ListedIn(chain, next.segmentId) {
      var i :| 0 <= i < n && chain.segments[i].segmentId == next.segmentId;
      assert d.segments[i].segmentId == d.segments[n].segmentId;
    }
  }

  lemma FullyTrimmedStays(s: State, t: State, segment: LogSegment)
    requires Grows(s, t) && FullyTrimmed(s, segment)
    ensures FullyTrimmed(t, segment)
  {
    GrowsGives(s, t, segment.segmentId);
  }

  /** What went below the first start of an installed chain has been trimmed. */
  lemma BelowFirstTrimmed(s: State, snapshot: VersionedLogChain)
    requires Inv(s) && Installed(s, snapshot) && snapshot.chain.value.segments != []
    ensures DiscardedBelow(s, snapshot.version, snapshot.chain.value.First().virtualStart)
  {
    hide Inv;
    var v := snapshot.version;
    var low := SegmentFacts(s, snapshot, 0);
    forall a | a in s.acks
      ensures 0 < a.version <= |s.windows|
      ensures KnownTo(s, v, a) && a.position < s.placed[low].start ==> a.local < LogletOf(s, a.segmentId).trimmed
    {
      AckFacts(s, a);
      var k := PlaceOfAck(s, a);
      if KnownTo(s, v, a) && a.position < s.placed[low].start {
        if k < low {
          AckBefore(s, a, k + 1);
          EndOf(s, v - 1, k);
        } else {
          Ascend(s, low, k);
        }
      }
    }
  }

  // ---- An undisturbed client -----------------------------------------------------------------------

  /** An attempt through `version`, made when the client had tried that many conditional writes. */
  datatype Look = Look(version: nat, writes: nat)

  ghost predicate LooksAt(s: State, look: Look) {
    0 < look.version <= |s.chains| && s.chains[look.version - 1].segments != []
  }

  /** Between two looks a chain was proposed, or the cached chain had got another active segment. */
  ghost predicate Moving(s: State, trail: seq<Look>) {
    && (forall i :: 0 <= i < |trail| ==> LooksAt(s, trail[i]))
    && (forall i :: 0 <= i && i + 1 < |trail| ==>
          MovedOn(s, trail[i], trail[i + 1].writes, trail[i + 1].version))
  }

  ghost predicate MovedOn(s: State, look: Look, writes: nat, version: nat) {
    || look.writes < writes
    || (&& LooksAt(s, look) && LooksAt(s, Look(version, writes))
        && s.chains[look.version - 1].Active().segmentId != s.chains[version - 1].Active().segmentId)
  }

  /** The conditional write proposed an extension of an installed chain. */
  ghost predicate ExtensionTried(s: State, write: VersionedLogChain) {
    exists snapshot, next, tail :: ExtensionOf(s, write, snapshot, next, tail)
  }

  ghost predicate ExtensionOf(s: State, write: VersionedLogChain, snapshot: VersionedLogChain,
      next: NewLogletConfiguration, tail: nat)
  {
    && Installed(s, snapshot) && Listing(snapshot)
    && write == NextVersion(snapshot, Extended(snapshot.chain.value, next, tail))
  }

  lemma ExtensionNoted(s: State, t: State, snapshot: VersionedLogChain, next: NewLogletConfiguration, tail: nat)
    requires Grows(s, t) && Installed(s, snapshot) && Listing(snapshot)
    ensures ExtensionOf(t, NextVersion(snapshot, Extended(snapshot.chain.value, next, tail)), snapshot, next, tail)
    ensures ExtensionTried(t, NextVersion(snapshot, Extended(snapshot.chain.value, next, tail)))
  {
    hide Extended;
    CacheStays(s, t, Some(snapshot));
    assert ExtensionOf(t, NextVersion(snapshot, Extended(snapshot.chain.value, next, tail)), snapshot, next, tail);
  }

  lemma NotMoving(s: State)
    ensures Moving(s, [])
  {
  }

  lemma SameChains(s: State, t: State, segmentId: string)
    ensures OnlyLoglet(s, t, segmentId) ==> t.chains == s.chains
  {
  }

  lemma MovingStays(s: State, t: State, trail: seq<Look>)
    requires Grows(s, t) && Moving(s, trail)
    ensures Moving(t, trail)
  {
  }

  /** After an attempt that went on, a chain was proposed or the cached chain has another active segment. */
  lemma Moved(s: State, t: State, snapshot: VersionedLogChain, trail: seq<Look>, writes: nat,
      cached: Option<VersionedLogChain>, wentOn: bool)
    requires Inv(t) && Grows(s, t) && Installed(s, snapshot) && Listing(snapshot) && Moving(s, trail)
    requires trail != [] && trail[|trail| - 1].version == snapshot.version
    requires cached.Some? ==> Installed(t, cached.value)
    requires wentOn && writes <= trail[|trail| - 1].writes && cached.Some? && Listing(cached.value) ==>
      ActiveId(cached.value) != ActiveId(snapshot)
    ensures Moving(t, trail)
    ensures wentOn && cached.Some? ==> MovedOn(t, trail[|trail| - 1], writes, cached.value.version)
  {
    hide Inv, Grows;
    MovingStays(s, t, trail);
    CacheStays(s, t, Some(snapshot));
    if cached.Some? {
      SnapshotFacts(t, cached.value);
    }
  }

  lemma MovesFurther(s: State, trail: seq<Look>, look: Look)
    requires Moving(s, trail) && LooksAt(s, look)
    requires trail != [] ==> MovedOn(s, trail[|trail| - 1], look.writes, look.version)
    ensures Moving(s, trail + [look])
  {
  }

  /** The Loglet's scripted answer is sealed, and one that its contract allows. */
  ghost predicate MayExtend(s: State, script: Script, segmentId: string) {
    ScriptOf(script, segmentId).isSealed && MayAnswer(LogletOf(s, segmentId), ScriptOf(script, segmentId))
  }

  /** An undisturbed extension of the current chain installs exactly the extended chain. */
  ghost predicate Extends(s: State, t: State, script: Script, next: NewLogletConfiguration, r: Result<bool>,
      cached: Option<VersionedLogChain>)
  {
    var register := RegisterOf(s);
    Listing(register) && MayExtend(s, script, ActiveId(register)) && !ListedIn(register.chain.value, next.segmentId) ==>
      && r == Ok(true)
      && cached == Some(NextVersion(register, Extended(register.chain.value, next,
                                                       ScriptOf(script, ActiveId(register)).tail)))
      && LogletOf(t, next.segmentId) == LogletOf(s, next.segmentId)
  }

  /** A fresh segment, whose Loglet nobody has touched, follows the current active one at its scripted tail. */
  ghost predicate Successor(s: State, t: State, script: Script, cached: Option<VersionedLogChain>) {
    && cached.Some? && Listing(cached.value) && Listing(RegisterOf(s))
    && ActiveOf(cached.value).virtualStart ==
         ActiveOf(RegisterOf(s)).virtualStart + ScriptOf(script, ActiveId(RegisterOf(s))).tail
    && LogletOf(t, ActiveId(cached.value)) == UNTOUCHED && ActiveId(cached.value) !in script
  }

  /** What rolling forward does when nobody else acts. */
  ghost predicate RolledForward(s: State, t: State, script: Script, closing: LogSegment, failure: Option<Failure>,
      before: VersionedLogChain, cached: Option<VersionedLogChain>)
  {
    && Listing(before) && Listing(RegisterOf(s))
    && if ActiveId(before) != closing.segmentId then failure.None? && t == s && cached == Some(before)
       else if ActiveId(RegisterOf(s)) != closing.segmentId then
         failure.None? && t == s && cached == Some(RegisterOf(s))
       else MayExtend(s, script, closing.segmentId) ==> failure.None? && Successor(s, t, script, cached)
  }

  lemma StaysPut(s: State, script: Script, closing: LogSegment, before: VersionedLogChain,
      cached: Option<VersionedLogChain>)
    requires Listing(before) && Listing(RegisterOf(s))
    requires if ActiveId(before) != closing.segmentId then cached == Some(before)
             else cached == Some(RegisterOf(s)) && ActiveId(RegisterOf(s)) != closing.segmentId
    ensures RolledForward(s, s, script, closing, None, before, cached)
  {
  }

  lemma RollsOn(s: State, t: State, script: Script, closing: LogSegment, next: NewLogletConfiguration,
      installed: Result<bool>, before: VersionedLogChain, cached: Option<VersionedLogChain>)
    requires Inv(s) && Listing(before) && Installed(s, RegisterOf(s)) && Listing(RegisterOf(s))
    requires ActiveId(before) == closing.segmentId == ActiveId(RegisterOf(s))
    requires Extends(s, t, script, next, installed, cached) && Unused(s, next.segmentId) && Tidy(s, script)
    ensures RolledForward(s, t, script, closing, if installed.Err? then Some(installed.error) else None, before, cached)
  {
    hide Inv, MayAnswer;
    var register := RegisterOf(s);
    if ListedIn(register.chain.value, next.segmentId) {
      var i :| 0 <= i < |register.chain.value.segments| && register.chain.value.segments[i].segmentId == next.segmentId;
      var k := SegmentFacts(s, register, i);
    }
  }

  // What a check or an append returns when nobody else acts. Undetermined are the cases where a Loglet's
  // contract does not allow its scripted answer, or where both chains' active segments are sealed.

  ghost predicate TailAsScripted(s: State, before: VersionedLogChain, script: Script, attempts: nat,
      r: Result<LogletTail>)
  {
    && Listing(before) && Listing(RegisterOf(s))
    && var a, b := ScriptOf(script, ActiveId(before)), ScriptOf(script, ActiveId(RegisterOf(s)));
       MayAnswer(LogletOf(s, ActiveId(before)), a) ==>
         if !a.isSealed || attempts == 1 then
           r == Ok(LogletTail(ActiveOf(before).virtualStart + a.tail, a.isSealed))
         else if ActiveId(RegisterOf(s)) == ActiveId(before) then
           r == Ok(LogletTail(ActiveOf(RegisterOf(s)).virtualStart + a.tail, false))
         else
           MayAnswer(LogletOf(s, ActiveId(RegisterOf(s))), b) && (!b.isSealed || attempts == 2) ==>
             r == Ok(LogletTail(ActiveOf(RegisterOf(s)).virtualStart + b.tail, b.isSealed))
  }

  ghost predicate AppendedAsScripted(s: State, before: VersionedLogChain, script: Script, attempts: nat,
      r: Result<nat>)
  {
    && Listing(before) && Listing(RegisterOf(s))
    && var a, b := ScriptOf(script, ActiveId(before)), ScriptOf(script, ActiveId(RegisterOf(s)));
       if !a.isSealed then
         MayAppend(LogletOf(s, ActiveId(before)), a.tail) ==> r == Ok(ActiveOf(before).virtualStart + a.tail)
       else if attempts == 1 then r == Err(LogletSealed)
       else if ActiveId(RegisterOf(s)) == ActiveId(before) then
         MayAnswer(LogletOf(s, ActiveId(before)), a) ==> r == Ok(ActiveOf(RegisterOf(s)).virtualStart + a.tail)
       else if !b.isSealed then
         MayAppend(LogletOf(s, ActiveId(RegisterOf(s))), b.tail) ==>
           r == Ok(ActiveOf(RegisterOf(s)).virtualStart + b.tail)
       else attempts == 2 ==> r == Err(LogletSealed)
  }

  /** Where an undisturbed client stands after its first attempt found the active segment sealed. */
  ghost predicate SecondAttempt(s0: State, s: State, before: VersionedLogChain, cached: Option<VersionedLogChain>,
      script: Script)
  {
    && Listing(before) && Listing(RegisterOf(s0)) && ScriptOf(script, ActiveId(before)).isSealed
    && if ActiveId(RegisterOf(s0)) == ActiveId(before) then
         MayAnswer(LogletOf(s0, ActiveId(before)), ScriptOf(script, ActiveId(before))) ==>
           Successor(s0, s, script, cached)
       else
         && cached == Some(RegisterOf(s0))
         && LogletOf(s, ActiveId(RegisterOf(s0))) == LogletOf(s0, ActiveId(RegisterOf(s0)))
  }

  /** The first attempt, at `s0`, moved the Loglet to `s` at most; rolling forward brings the second. */
  lemma FirstRolled(s0: State, s: State, t: State, script: Script, before: VersionedLogChain,
      cached: Option<VersionedLogChain>, failure: Option<Failure>)
    requires Inv(s0) && Installed(s0, before) && Listing(before) && Tidy(s0, script)
    requires s == s0 || (OnlyLoglet(s0, s, ActiveId(before))
      && LogletOf(s, ActiveId(before)).acked == LogletOf(s0, ActiveId(before)).acked)
    requires ScriptOf(script, ActiveId(before)).isSealed
    requires Tidy(s, script) ==> RolledForward(s, t, script, ActiveOf(before), failure, before, cached)
    ensures SecondAttempt(s0, t, before, cached, script)
    ensures ActiveId(RegisterOf(s0)) != ActiveId(before) ==> failure.None?
    ensures MayAnswer(LogletOf(s0, ActiveId(before)), ScriptOf(script, ActiveId(before))) ==> failure.None?
  {
    hide Inv;
    RegisterLists(s0, before);
    var k := SegmentFacts(s0, before, |before.chain.value.segments| - 1);
    assert Tidy(s, script);
  }

  /** Whatever the check returns, it is as scripted. */
  ghost predicate TailUndetermined(s: State, before: VersionedLogChain, script: Script, attempts: nat) {
    forall r :: TailAsScripted(s, before, script, attempts, r)
  }

  ghost predicate TailFollow(s0: State, s: State, before: VersionedLogChain, cached: Option<VersionedLogChain>,
      script: Script, attempts: nat, attempt: nat)
  {
    || TailUndetermined(s0, before, script, attempts)
    || (attempt == 0 && s == s0 && cached == Some(before))
    || (attempt == 1 && 2 <= attempts && SecondAttempt(s0, s, before, cached, script))
  }

  /** What an attempt's answer settles. */
  lemma TailFollowed(s0: State, s: State, before: VersionedLogChain, snapshot: VersionedLogChain, script: Script,
      attempts: nat, attempt: nat, reply: Option<LogletTail>)
    requires Inv(s0) && Installed(s0, before) && Listing(snapshot) && attempt < attempts
    requires TailFollow(s0, s, before, Some(snapshot), script, attempts, attempt)
    requires MayAnswer(LogletOf(s, ActiveId(snapshot)), ScriptOf(script, ActiveId(snapshot))) ==>
      reply == Some(ScriptOf(script, ActiveId(snapshot)))
    ensures reply.None? ==> TailUndetermined(s0, before, script, attempts)
    ensures reply.Some? && (!reply.value.isSealed || attempt + 1 == attempts) ==>
      TailAsScripted(s0, before, script, attempts,
                     Ok(LogletTail(ActiveOf(snapshot).virtualStart + reply.value.tail, reply.value.isSealed)))
    ensures reply.Some? && reply.value.isSealed && attempt + 1 < attempts ==>
      || TailUndetermined(s0, before, script, attempts)
      || (&& attempt == 0 && s == s0 && snapshot == before && reply.value == ScriptOf(script, ActiveId(before))
          && MayAnswer(LogletOf(s0, ActiveId(before)), reply.value))
  {
    hide Inv;
    RegisterLists(s0, before);
  }

  /** Rolling forward after a determined first attempt. */
  lemma TailRolled(s0: State, s: State, t: State, before: VersionedLogChain, cached: Option<VersionedLogChain>,
      script: Script, attempts: nat, failure: Option<Failure>)
    requires Inv(s0) && Installed(s0, before) && Listing(before) && Tidy(s0, script) && 2 <= attempts
    requires ScriptOf(script, ActiveId(before)).isSealed
    requires MayAnswer(LogletOf(s0, ActiveId(before)), ScriptOf(script, ActiveId(before)))
    requires OnlyLoglet(s0, s, ActiveId(before))
    requires LogletOf(s, ActiveId(before)).acked == LogletOf(s0, ActiveId(before)).acked
    requires Tidy(s, script) ==> RolledForward(s, t, script, ActiveOf(before), failure, before, cached)
    ensures failure.None? && TailFollow(s0, t, before, cached, script, attempts, 1)
  {
    hide Inv, MayAnswer, RolledForward, Tidy, SecondAttempt, TailUndetermined;
    FirstRolled(s0, s, t, script, before, cached, failure);
  }

  lemma TailFree(s0: State, before: VersionedLogChain, script: Script, attempts: nat)
    requires TailUndetermined(s0, before, script, attempts)
    ensures forall r :: TailAsScripted(s0, before, script, attempts, r)
    ensures forall s, cached, attempt :: TailFollow(s0, s, before, cached, script, attempts, attempt)
  {
    hide TailAsScripted, SecondAttempt;
  }

  ghost predicate AnswersOpen(s: State, before: VersionedLogChain, script: Script) {
    && Listing(before) && !ScriptOf(script, ActiveId(before)).isSealed
    && MayAnswer(LogletOf(s, ActiveId(before)), ScriptOf(script, ActiveId(before)))
  }

  /** A trim by an undisturbed client whose cache is current, up to its open scripted tail. */
  ghost predicate TrimsAsScripted(s: State, before: VersionedLogChain, script: Script, limit: int, r: Result<nat>,
      attempts: nat, after: Option<VersionedLogChain>)
  {
    && Listing(before)
    && var a := ScriptOf(script, ActiveId(before));
       if limit <= before.chain.value.First().virtualStart then r == Ok(before.chain.value.First().virtualStart)
       else
         MayAnswer(LogletOf(s, ActiveId(before)), a) && !a.isSealed ==>
           if ActiveOf(before).virtualStart + a.tail < limit then r == Err(InvalidArgument)
           else r.Ok? && limit <= r.value && after.Some? && Pruned(before, after.value, limit, attempts)
  }

  /** The chain has lost the leading segments that end at or below `limit`, or `attempts` of them. */
  ghost predicate Pruned(before: VersionedLogChain, after: VersionedLogChain, limit: int, attempts: nat) {
    exists k: nat :: k <= attempts && PrunedBy(before, after, limit, k) && (k == attempts || Kept(after, limit))
  }

  ghost predicate PrunedBy(before: VersionedLogChain, after: VersionedLogChain, limit: int, k: nat) {
    && Listing(before) && Listing(after) && k < |before.chain.value.segments|
    && after.chain.value.segments == before.chain.value.segments[k..]
    && forall i :: 0 <= i < k ==> Droppable(before.chain.value.segments[i], limit)
  }

  ghost predicate Droppable(segment: LogSegment, limit: int) {
    segment.virtualStop.Some? && segment.virtualStop.value <= limit
  }

  /** The first segment stays. */
  ghost predicate Kept(snapshot: VersionedLogChain, limit: int)
    requires Listing(snapshot)
  {
    |snapshot.chain.value.segments| == 1 || !Droppable(snapshot.chain.value.First(), limit)
  }

  lemma PrunedNot(snapshot: VersionedLogChain, limit: int)
    requires Listing(snapshot)
    ensures PrunedBy(snapshot, snapshot, limit, 0)
  {
  }

  lemma PrunedOne(before: VersionedLogChain, current: VersionedLogChain, limit: int, k: nat)
    requires PrunedBy(before, current, limit, k) && !Kept(current, limit)
    ensures PrunedBy(before, NextVersion(current, Truncated(current.chain.value)), limit, k + 1)
  {
    assert before.chain.value.segments[k..][1..] == before.chain.value.segments[k + 1..];
    assert before.chain.value.segments[k] == current.chain.value.First();
  }

  ghost predicate AppendUndetermined(s: State, before: VersionedLogChain, script: Script, attempts: nat) {
    forall r :: AppendedAsScripted(s, before, script, attempts, r)
  }

  ghost predicate AppendFollow(s0: State, s: State, before: VersionedLogChain, cached: Option<VersionedLogChain>,
      script: Script, attempts: nat, attempt: nat)
  {
    || AppendUndetermined(s0, before, script, attempts)
    || (attempt == 0 && s == s0 && cached == Some(before))
    || (attempt == 1 && 2 <= attempts && SecondAttempt(s0, s, before, cached, script))
  }

  /** What an attempt's answer settles. */
  lemma AppendFollowed(s0: State, s: State, before: VersionedLogChain, snapshot: VersionedLogChain, script: Script,
      attempts: nat, attempt: nat, reply: AppendReply)
    requires Inv(s0) && Installed(s0, before) && Listing(snapshot) && attempt < attempts
    requires AppendFollow(s0, s, before, Some(snapshot), script, attempts, attempt)
    requires var a := ScriptOf(script, ActiveId(snapshot));
      && (a.isSealed ==> reply == AppendSealed)
      && (!a.isSealed && MayAppend(LogletOf(s, ActiveId(snapshot)), a.tail) ==> reply == AppendedAt(a.tail))
    ensures reply.AppendedAt? ==>
      AppendedAsScripted(s0, before, script, attempts, Ok(ActiveOf(snapshot).virtualStart + reply.local))
    ensures reply.AppendSealed? && attempt + 1 == attempts ==>
      AppendedAsScripted(s0, before, script, attempts, Err(LogletSealed))
    ensures reply.AppendSealed? && attempt + 1 < attempts ==>
      || AppendUndetermined(s0, before, script, attempts)
      || (&& attempt == 0 && s == s0 && snapshot == before && ScriptOf(script, ActiveId(before)).isSealed)
    ensures reply.AppendUnavailable? ==> AppendUndetermined(s0, before, script, attempts)
  {
    hide Inv;
    RegisterLists(s0, before);
  }

  /** Rolling forward after a first attempt that was refused as sealed. */
  lemma AppendRolled(s0: State, t: State, before: VersionedLogChain, cached: Option<VersionedLogChain>,
      script: Script, attempts: nat, failure: Option<Failure>)
    requires Inv(s0) && Installed(s0, before) && Listing(before) && Tidy(s0, script) && 2 <= attempts
    requires ScriptOf(script, ActiveId(before)).isSealed
    requires RolledForward(s0, t, script, ActiveOf(before), failure, before, cached)
    ensures AppendFollow(s0, t, before, cached, script, attempts, 1)
    ensures failure.Some? ==> AppendUndetermined(s0, before, script, attempts)
  {
    hide Inv, MayAnswer, RolledForward, Tidy;
    RegisterLists(s0, before);
    FirstRolled(s0, s0, t, script, before, cached, failure);
  }

  lemma AppendFree(s0: State, before: VersionedLogChain, script: Script, attempts: nat)
    requires AppendUndetermined(s0, before, script, attempts)
    ensures forall r :: AppendedAsScripted(s0, before, script, attempts, r)
    ensures forall s, cached, attempt :: AppendFollow(s0, s, before, cached, script, attempts, attempt)
  {
    hide AppendedAsScripted, SecondAttempt;
  }

  lemma AppendStart(s: State, before: VersionedLogChain, script: Script, attempts: nat)
    ensures AppendFollow(s, s, before, Some(before), script, attempts, 0)
  {
  }

  lemma TailStart(s: State, before: VersionedLogChain, script: Script, attempts: nat)
    ensures TailFollow(s, s, before, Some(before), script, attempts, 0)
  {
  }

  class VirtualLog {
    const world: World
    const hasProvider: bool
    const hasPolicy: bool
    const maxAttempts: nat
    var cached: Option<VersionedLogChain>

    ghost predicate Valid()
      reads this, world
    {
      && Inv(world.state) && 0 < maxAttempts
      && (cached.Some? ==> Installed(world.state, cached.value))
    }

    /** Nobody else acts, nothing is lost, and the Loglets answer as scripted. */
    ghost predicate Undisturbed() {
      world.undisturbed && hasProvider
    }

    constructor (world: World, hasProvider: bool, hasPolicy: bool, maxAttempts: nat)
      requires Inv(world.state) && 0 < maxAttempts
      ensures Valid() && this.world == world && cached == None
      ensures this.hasProvider == hasProvider && this.hasPolicy == hasPolicy && this.maxAttempts == maxAttempts
    {
      this.world, this.hasProvider, this.hasPolicy, this.maxAttempts := world, hasProvider, hasPolicy, maxAttempts;
      cached := None;
    }

    /** Others run: the world moves on, and the cache may come to hold any installed version. */
    method Await()
      requires Valid()
      modifies world`state, this`cached
      ensures Valid() && Interference(old(world.state), world.state, world.reserved)
      ensures old(cached).Some? ==> cached.Some?
      ensures world.undisturbed ==> world.state == old(world.state) && cached == old(cached)
    {
      InterferenceReflexive(world.state, world.reserved);
    }

    /**
     Asks for one installation, of the chain of this one segment as version 1, and returns what is then
     installed: that chain, or what somebody else's write put there.
     */
    method Bootstrap(initial: LogSegment) returns (r: Result<VersionedLogChain>)
      requires Valid() && initial.Valid()
      modifies world, this`cached
      ensures Valid() && Grows(old(world.state), world.state)
      ensures r == Err(InvalidArgument) <==> initial.virtualStart != 0 || initial.virtualStop.Some?
      ensures r.Err? ==> r.error == InvalidArgument || r.error == MetaStoreUnavailable
      ensures old(cached).Some? ==> cached.Some?
      ensures r.Ok? ==> cached == Some(r.value) && Installed(world.state, r.value)
      ensures world.writes == old(world.writes) + if r == Err(InvalidArgument) then [] else [FirstVersion(initial)]
      ensures world.drops == old(world.drops) && world.requests == old(world.requests)
      ensures world.undisturbed && initial.virtualStart == 0 && initial.virtualStop.None? ==>
        if old(world.state).chains == []
        then r == Ok(FirstVersion(initial)) && world.state.chains == [LogChain([initial])]
        else r == Ok(RegisterOf(old(world.state))) && world.state == old(world.state)
    {
      hide Inv, Grows, Interference;
      GrowsReflexive(world.state);
      if initial.virtualStart != 0 || initial.virtualStop.Some? {
        return Err(InvalidArgument);
      }
      var candidate := LogChain([initial]);
      SameLengths(world.state);
      BootstrapFits(world.state, initial);
      ghost var s := world.state;
      var result := world.CompareAndSwap(0, candidate, BootstrapAction(initial));
      ghost var t := world.state;
      CacheStays(s, t, cached);
      Await();
      InterferenceGives(t, world.state, world.reserved);
      GrowsTransitive(s, t, world.state);
      if result.None? {
        return Err(MetaStoreUnavailable);
      }
      var snapshot := match result.value case Applied(x) => x case VersionMismatch(x) => x;
      cached := Some(snapshot);
      r := Ok(snapshot);
    }

    /** Takes over the register; a lagging answer may be older than what was cached. */
    method Refresh() returns (r: Result<VersionedLogChain>)
      requires Valid()
      modifies world`state, world`registerReads, this`cached
      ensures Valid() && Interference(old(world.state), world.state, world.reserved)
      ensures r.Ok? ==> cached == Some(r.value)
      ensures r.Err? ==> r.error != LogletSealed
      ensures old(cached).Some? ==> cached.Some?
      ensures old(world.registerReads) < world.registerReads
      ensures world.undisturbed ==>
        && world.state == old(world.state)
        && r == if world.state.chains == [] then Err(ChainUnavailable) else Ok(RegisterOf(world.state))
    {
      hide Inv, Grows, Interference;
      ghost var s := world.state;
      var snapshot := world.ReadRegister();
      ghost var t := world.state;
      InterferenceGives(s, t, world.reserved);
      Await();
      InterferenceGives(t, world.state, world.reserved);
      InterferenceTransitive(s, t, world.state, world.reserved);
      if snapshot.None? {
        return Err(MetaStoreUnavailable);
      }
      if snapshot.value.chain.None? {
        return Err(ChainUnavailable);
      }
      cached := snapshot;
      r := Ok(snapshot.value);
    }

    /** The conditional write of a new chain; whatever is installed then becomes the cached chain. */
    method InstallChain(expected: VersionedLogChain, candidate: LogChain, action: Action) returns (r: Result<bool>)
      requires Valid() && Installed(world.state, expected)
      requires expected.version == |world.state.chains| ==>
        Enabled(world.state, action) && |world.state.windows| == |world.state.chains| &&
        After(world.state, action).chains == world.state.chains + [candidate]
      requires !action.LogletAction? && !action.AcknowledgeAction?
      requires action.ExtendAction? ==> action.next.segmentId in world.reserved
      modifies world`state, world`drops, world`writes, this`cached
      ensures Valid() && Grows(old(world.state), world.state)
      ensures r == Ok(true) ==> cached == Some(VersionedLogChain(expected.version + 1, Some(candidate)))
      ensures r == Ok(false) ==> cached.Some? && expected.version < cached.value.version
      ensures r.Err? ==> r.error == MetaStoreUnavailable
      ensures old(cached).Some? ==> cached.Some?
      ensures world.writes == old(world.writes) + [NextVersion(expected, candidate)]
      ensures world.undisturbed && expected.version == |old(world.state).chains| ==>
        r == Ok(true) && world.state == After(old(world.state), action)
      ensures world.undisturbed && expected.version != |old(world.state).chains| ==>
        r == Ok(false) && world.state == old(world.state) && cached == Some(RegisterOf(world.state))
      ensures old(world.drops) <= world.drops
      ensures world.drops == old(world.drops) ||
        (&& action.TruncateAction? && expected.version == |old(world.state).chains|
         && candidate == Truncated(Current(old(world.state)))
         && world.drops == old(world.drops) + {Current(old(world.state)).First()})
    {
      hide Inv, Grows, Interference;
      ghost var s := world.state;
      SameLengths(s);
      var result := world.CompareAndSwap(expected.version, candidate, action);
      ghost var t := world.state;
      CacheStays(s, t, cached);
      Await();
      InterferenceGives(t, world.state, world.reserved);
      GrowsTransitive(s, t, world.state);
      if result.None? {
        return Err(MetaStoreUnavailable);
      }
      cached := Some(match result.value case Applied(x) => x case VersionMismatch(x) => x);
      r := Ok(result.value.Applied?);
    }

    /**
     Seal, then check_tail, then install: the active segment closes at the sealed tail and `next` opens
     there, as one step from the cached chain or not at all.
     */
    method ReconfigExtend(next: NewLogletConfiguration) returns (r: Result<bool>)
      requires Valid() && next.segmentId != "" && Nameable(next.segmentId)
      modifies world`state, world`seals, world`drops, world`writes, this`cached
      ensures Valid() && Grows(old(world.state), world.state) && world.drops == old(world.drops)
      ensures r == Ok(true) ==>
        && old(cached).Some? && old(cached).value.chain.Some? && old(cached).value.chain.value.segments != []
        && var active := old(cached).value.chain.value.Active();
           exists tail ::
             && tail in LogletOf(world.state, active.segmentId).sealedTails && active.segmentId in world.seals
             && cached == Some(NextVersion(old(cached).value, Extended(old(cached).value.chain.value, next, tail)))
      ensures r == Ok(false) ==> old(cached).Some? && cached.Some? && old(cached).value.version < cached.value.version
      ensures old(cached).Some? ==> cached.Some?
      ensures r.Ok? ==>
        |world.writes| == |old(world.writes)| + 1 && ExtensionTried(world.state, world.writes[|old(world.writes)|])
      ensures |old(world.writes)| <= |world.writes| && (r.Err? ==> r.error != LogletSealed)
      ensures Undisturbed() && old(cached) == Some(RegisterOf(old(world.state))) ==>
        Extends(old(world.state), world.state, world.script, next, r, cached)
    {
      hide Inv, Grows, Interference, AckedBelow, Extended, MayAnswer, ExtensionOf, ExtensionTried;
      ghost var before := cached;
      if before.Some? {
        RegisterLists(world.state, before.value);
      }
      GrowsReflexive(world.state);
      if cached.None? {
        return Err(ChainUnavailable);
      }
      if !hasProvider {
        return Err(LogletUnavailable);
      }
      var snapshot := cached.value;
      ghost var s0 := world.state;
      InterferenceReflexive(s0, world.reserved);
      SnapshotFacts(s0, snapshot);
      var chain := snapshot.chain.value;
      var active := chain.Active();
      var done := world.LogletSeal(active.segmentId);
      StillInstalled(s0, s0, world.state, world.reserved, cached);
      Resume(s0);
      if !done {
        return Err(LogletUnavailable);
      }
      ghost var s1 := world.state;
      var reply := world.LogletCheckTail(active.segmentId);
      ghost var s2 := world.state;
      StillInstalled(s0, s1, s2, world.reserved, cached);
      Resume(s0);
      if reply.None? {
        return Err(LogletUnavailable);
      }
      if !reply.value.isSealed {
        return Err(ChainUnavailable);
      }
      var tail := reply.value.tail;
      var candidate := Extended(chain, next, tail);
      ExtendedValid(chain, next, tail);
      if !candidate.Valid() {
        return Err(InvalidArgument);
      }
      ghost var s3 := world.state;
      InterferenceGives(s0, s3, world.reserved);
      SealedTailStays(s2, s3, world.reserved, active.segmentId, tail);
      ExtendFits(s3, snapshot, next, tail);
      r := InstallChain(snapshot, candidate, ExtendAction(next, tail));
      assert world.writes[|old(world.writes)|] == NextVersion(snapshot, candidate);
      ExtensionNoted(s3, world.state, snapshot, next, tail);
      GrowsGives(s3, world.state, active.segmentId);
      GrowsTransitive(s0, s3, world.state);
    }

    /** The identifier was drawn for this purpose and nobody uses it, or the cached chain lists it. */
    ghost predicate Nameable(segmentId: string)
      requires Valid()
      reads this, world
    {
      || (segmentId in world.reserved && Unused(world.state, segmentId))
      || (cached.Some? && ListedIn(cached.value.chain.value, segmentId))
    }

    /** Others run after a request that began at or after `s0`. */
    method Resume(ghost s0: State)
      requires Valid() && Interference(s0, world.state, world.reserved)
      modifies world`state, this`cached
      ensures Valid() && Interference(s0, world.state, world.reserved)
      ensures Interference(old(world.state), world.state, world.reserved)
      ensures Grows(s0, world.state)
      ensures old(cached).Some? ==> cached.Some?
      ensures world.undisturbed ==> world.state == old(world.state) && cached == old(cached)
    {
      hide Inv, Grows, Interference;
      ghost var s := world.state;
      Await();
      InterferenceTransitive(s0, s, world.state, world.reserved);
      InterferenceGives(s0, world.state, world.reserved);
    }

    /** The expected segment if it is still the active one after a refresh. */
    method RefreshIfActive(expected: LogSegment) returns (r: Result<Option<LogSegment>>)
      requires Valid()
      modifies world`state, world`registerReads, this`cached
      ensures Valid() && Interference(old(world.state), world.state, world.reserved)
      ensures old(cached).Some? ==> cached.Some?
      ensures r.Ok? && r.value.Some? ==>
        && r.value.value.segmentId == expected.segmentId
        && cached.Some? && cached.value.chain.Some? && cached.value.chain.value.segments != []
        && cached.value.chain.value.Active() == r.value.value
      ensures r.Err? ==> r.error != LogletSealed
      ensures r == Ok(None) && cached.Some? && Listing(cached.value) ==> ActiveId(cached.value) != expected.segmentId
      ensures r.Ok? && old(cached).Some? && Listing(old(cached).value) ==>
        ActiveId(old(cached).value) == expected.segmentId ==> old(world.registerReads) < world.registerReads
      ensures world.undisturbed && old(cached).Some? ==>
        && Listing(old(cached).value) && Listing(RegisterOf(old(world.state))) && world.state == old(world.state)
        && if ActiveId(old(cached).value) != expected.segmentId then r == Ok(None) && cached == old(cached)
           else
             && cached == Some(RegisterOf(world.state))
             && r == Ok(if ActiveId(cached.value) == expected.segmentId then Some(ActiveOf(cached.value)) else None)
    {
      hide Inv, Grows, Interference;
      if cached.Some? {
        RegisterLists(world.state, cached.value);
      }
      InterferenceReflexive(world.state, world.reserved);
      if cached.None? {
        return Err(ChainUnavailable);
      }
      SnapshotFacts(world.state, cached.value);
      if cached.value.chain.value.Active().segmentId != expected.segmentId {
        return Ok(None);
      }
      var refreshed := Refresh();
      if refreshed.Err? {
        return Err(refreshed.error);
      }
      SnapshotFacts(world.state, cached.value);
      var active := refreshed.value.chain.value.Active();
      r := Ok(if active.segmentId == expected.segmentId then Some(active) else None);
    }

    /** Adopts the successor another client installed, or finishes the reconfiguration with a fresh segment. */
    method RollForward(closing: LogSegment) returns (failure: Option<Failure>)
      requires Valid()
      modifies world`state, world`seals, world`registerReads, world`drops, world`writes, world`reserved, this`cached
      ensures Valid() && Grows(old(world.state), world.state) && world.drops == old(world.drops)
      ensures old(cached).Some? ==> cached.Some?
      ensures |old(world.writes)| <= |world.writes| && failure != Some(LogletSealed)
      ensures failure.None? && cached.Some? && Listing(cached.value) && ActiveId(cached.value) == closing.segmentId ==>
        |old(world.writes)| < |world.writes| && ExtensionTried(world.state, world.writes[|old(world.writes)|])
      ensures Undisturbed() && old(cached).Some? && Tidy(old(world.state), world.script) ==>
        RolledForward(old(world.state), world.state, world.script, closing, failure, old(cached).value, cached)
    {
      hide Inv, Grows, Interference, Extended, MayAnswer, Tidy, Extends, RolledForward, ExtensionOf;
      ghost var before := cached;
      if before.Some? {
        RegisterLists(world.state, before.value);
      }
      ghost var s0 := world.state;
      var first := RefreshIfActive(closing);
      InterferenceGives(s0, world.state, world.reserved);
      if first.Err? {
        return Some(first.error);
      }
      if first.value.None? {
        if Undisturbed() && before.Some? {
          StaysPut(s0, world.script, closing, before.value, cached);
        }
        return None;
      }
      Resume(s0);
      ghost var s1 := world.state;
      var again := RefreshIfActive(closing);
      InterferenceGives(s1, world.state, world.reserved);
      GrowsTransitive(s0, s1, world.state);
      if again.Err? {
        return Some(again.error);
      }
      if again.value.None? {
        return None;
      }
      var id := world.Uuid4();
      ghost var s2 := world.state;
      var next := NewLogletConfiguration(id, again.value.value.loglet);
      var installed := ReconfigExtend(next);
      GrowsTransitive(s0, s2, world.state);
      if Undisturbed() && before.Some? && Tidy(s0, world.script) {
        RollsOn(s0, world.state, world.script, closing, next, installed, before.value, cached);
      }
      failure := if installed.Err? then Some(installed.error) else None;
    }

    /** Asks the policy for a successor of an unavailable segment and installs it. */
    method ReplaceUnavailable(failed: LogSegment) returns (failure: Option<Failure>)
      requires Valid()
      modifies world`state, world`seals, world`registerReads, world`drops, world`writes, world`reserved, this`cached
      ensures Valid() && Grows(old(world.state), world.state) && world.drops == old(world.drops)
      ensures old(cached).Some? ==> cached.Some?
      ensures |old(world.writes)| <= |world.writes| && failure != Some(LogletSealed)
      ensures failure.None? && cached.Some? && Listing(cached.value) && ActiveId(cached.value) == failed.segmentId ==>
        |old(world.writes)| < |world.writes| && ExtensionTried(world.state, world.writes[|old(world.writes)|])
      ensures Undisturbed() && hasPolicy && old(cached).Some? && Tidy(old(world.state), world.script) ==>
        RolledForward(old(world.state), world.state, world.script, failed, failure, old(cached).value, cached)
    {
      hide Inv, Grows, Interference, Extended, ExtensionOf, MayAnswer, Tidy, Extends, RolledForward;
      ghost var s0, before := world.state, cached;
      if before.Some? {
        RegisterLists(s0, before.value);
      }
      var active := RefreshIfActive(failed);
      InterferenceGives(s0, world.state, world.reserved);
      if active.Err? {
        return Some(active.error);
      }
      if active.value.None? {
        if Undisturbed() && before.Some? {
          StaysPut(s0, world.script, failed, before.value, cached);
        }
        return None;
      }
      if !hasPolicy {
        return Some(LogletUnavailable);
      }
      Resume(s0);
      var id := world.Uuid4();
      var configuration: LogletConfiguration := *;
      ghost var s1 := world.state;
      var next := NewLogletConfiguration(id, configuration);
      var installed := ReconfigExtend(next);
      GrowsTransitive(s0, s1, world.state);
      if Undisturbed() && before.Some? && Tidy(s0, world.script) {
        RollsOn(s0, world.state, world.script, failed, next, installed, before.value, cached);
      }
      failure := if installed.Err? then Some(installed.error) else None;
    }

    /** Replaces the active segment of the chain just looked at, and goes on if that worked. */
    method ReplaceOn(ghost s0: State, snapshot: VersionedLogChain, ghost trail: seq<Look>)
      returns (failure: Option<Failure>)
      requires Valid() && Installed(world.state, snapshot) && Listing(snapshot) && Moving(world.state, trail)
      requires trail != [] && trail[|trail| - 1] == Look(snapshot.version, |world.writes|)
      requires Grows(s0, world.state)
      modifies world`state, world`seals, world`registerReads, world`drops, world`writes, world`reserved, this`cached
      ensures Valid() && Grows(s0, world.state) && Grows(old(world.state), world.state)
      ensures world.drops == old(world.drops) && (old(cached).Some? ==> cached.Some?)
      ensures Moving(world.state, trail) && failure != Some(LogletSealed)
      ensures failure.None? && cached.Some? ==>
        MovedOn(world.state, trail[|trail| - 1], |world.writes|, cached.value.version)
    {
      hide Inv, Grows, Interference, Moving, MovedOn;
      ghost var u := world.state;
      failure := ReplaceUnavailable(snapshot.chain.value.Active());
      GrowsTransitive(s0, u, world.state);
      Moved(u, world.state, snapshot, trail, |world.writes|, cached, failure.None?);
    }

    /** Rolls forward from the sealed active segment of the chain just looked at. */
    method RollOn(ghost s0: State, snapshot: VersionedLogChain, ghost trail: seq<Look>)
      returns (failure: Option<Failure>)
      requires Valid() && Installed(world.state, snapshot) && Listing(snapshot) && Moving(world.state, trail)
      requires trail != [] && trail[|trail| - 1] == Look(snapshot.version, |world.writes|)
      requires Grows(s0, world.state)
      modifies world`state, world`seals, world`registerReads, world`drops, world`writes, world`reserved, this`cached
      ensures Valid() && Grows(s0, world.state) && Grows(old(world.state), world.state)
      ensures world.drops == old(world.drops) && (old(cached).Some? ==> cached.Some?)
      ensures Moving(world.state, trail) && failure != Some(LogletSealed)
      ensures failure.None? && cached.Some? ==>
        MovedOn(world.state, trail[|trail| - 1], |world.writes|, cached.value.version)
      ensures Undisturbed() && old(cached).Some? && Tidy(old(world.state), world.script) ==>
        RolledForward(old(world.state), world.state, world.script, ActiveOf(snapshot), failure, old(cached).value,
                      cached)
    {
      hide Inv, Grows, Interference, Moving, MovedOn, RolledForward, Tidy;
      ghost var u := world.state;
      failure := RollForward(snapshot.chain.value.Active());
      GrowsTransitive(s0, u, world.state);
      Moved(u, world.state, snapshot, trail, |world.writes|, cached, failure.None?);
    }

    /** One append through the cached chain's active segment; the caller gets the virtual position. */
    method TryAppend(command: LogCommand, ghost s0: State, ghost trail: seq<Look>) returns (reply: AppendReply)
      requires Valid() && cached.Some? && hasProvider && Grows(s0, world.state) && Moving(world.state, trail)
      requires trail != [] ==> MovedOn(world.state, trail[|trail| - 1], |world.writes|, cached.value.version)
      modifies world`state
      ensures Valid() && Grows(s0, world.state) && Listing(cached.value)
      ensures Moving(world.state, trail + [Look(cached.value.version, |world.writes|)])
      ensures reply.AppendedAt? ==>
        AckedAt(world.state, ActiveOf(cached.value).virtualStart + reply.local, command)
      ensures world.undisturbed ==>
        var script := ScriptOf(world.script, ActiveId(cached.value));
        && (script.isSealed ==> reply == AppendSealed && world.state == old(world.state))
        && (!script.isSealed && MayAppend(LogletOf(old(world.state), ActiveId(cached.value)), script.tail) ==>
              reply == AppendedAt(script.tail))
    {
      hide Inv, Grows, Interference, MayAppend, Moving, MovedOn;
      var snapshot := cached.value;
      ghost var s := world.state;
      SnapshotFacts(s, snapshot);
      assert Moving(s, trail + [Look(snapshot.version, |world.writes|)]) by {
        MovesFurther(s, trail, Look(snapshot.version, |world.writes|));
      }
      reply := world.LogletAppend(snapshot.chain.value.Active().segmentId, command);
      ghost var t := world.state;
      InterferenceGives(s, t, world.reserved);
      CacheStays(s, t, cached);
      GrowsTransitive(s0, s, t);
      MovingStays(s, t, trail + [Look(snapshot.version, |world.writes|)]);
      if reply.AppendedAt? {
        world.Acknowledge(snapshot.version, reply.local);
        InterferenceGives(t, world.state, world.reserved);
        CacheStays(t, world.state, cached);
        GrowsTransitive(s0, t, world.state);
        MovingStays(t, world.state, trail + [Look(snapshot.version, |world.writes|)]);
      }
    }

    /**
     Appends through the cached chain's active segment, replacing it when it is sealed or unavailable. Each
     attempt is a look of the trail; it gives up over a sealed segment only after the last one, and over an
     unavailable one earlier only without a policy or when replacing failed.
     */
    method Append(command: LogCommand) returns (r: Result<nat>, ghost trail: seq<Look>)
      requires Valid()
      modifies world`state, world`seals, world`registerReads, world`drops, world`writes, world`reserved, this`cached
      ensures Valid() && Grows(old(world.state), world.state) && world.drops == old(world.drops)
      ensures r.Ok? ==> AckedAt(world.state, r.value, command)
      ensures old(cached).Some? ==> cached.Some?
      ensures Moving(world.state, trail) && |trail| <= maxAttempts
      ensures r == Err(LogletSealed) ==> |trail| == maxAttempts
      ensures Undisturbed() && old(cached).Some? && Tidy(old(world.state), world.script) ==>
        AppendedAsScripted(old(world.state), old(cached).value, world.script, maxAttempts, r)
    {
      hide Inv, Grows, Interference, MayAnswer, MayAppend, Tidy, AppendedAsScripted, RolledForward, OnlyLoglet,
        AppendFollow, AppendUndetermined, Moving, MovedOn, AckedAt;
      ghost var s0, before, script := world.state, cached, world.script;
      ghost var scripted := Undisturbed() && before.Some? && Tidy(s0, script);
      trail := [];
      NotMoving(s0);
      GrowsReflexive(s0);
      if before.Some? {
        AppendStart(s0, before.value, script, maxAttempts);
      }
      r := Err(LogletUnavailable);
      for attempt := 0 to maxAttempts
        invariant Valid() && Grows(s0, world.state) && world.drops == old(world.drops)
        invariant attempt < maxAttempts
        invariant |trail| == attempt && Moving(world.state, trail)
        invariant 0 < attempt && cached.Some? ==>
          MovedOn(world.state, trail[attempt - 1], |world.writes|, cached.value.version)
        invariant scripted ==> AppendFollow(s0, world.state, before.value, cached, script, maxAttempts, attempt)
        invariant before.Some? ==> cached.Some?
      {
        if cached.None? {
          r := Err(ChainUnavailable);
          return;
        }
        if !hasProvider {
          r := Err(LogletUnavailable);
          return;
        }
        var snapshot := cached.value;
        ghost var s := world.state;
        var reply := TryAppend(command, s0, trail);
        trail := trail + [Look(snapshot.version, |world.writes|)];
        ghost var t := world.state;
        if scripted {
          AppendFollowed(s0, s, before.value, snapshot, script, maxAttempts, attempt, reply);
          if AppendUndetermined(s0, before.value, script, maxAttempts) {
            AppendFree(s0, before.value, script, maxAttempts);
          }
        }
        match reply
        case AppendedAt(local) =>
          r := Ok(snapshot.chain.value.Active().virtualStart + local);
          return;
        case AppendSealed =>
          if attempt + 1 == maxAttempts {
            r := Err(LogletSealed);
            return;
          }
          var failure := RollOn(s0, snapshot, trail);
          if scripted && !AppendUndetermined(s0, before.value, script, maxAttempts) {
            AppendRolled(s0, world.state, before.value, cached, script, maxAttempts, failure);
          }
          if failure.Some? {
            r := Err(failure.value);
            return;
          }
        case AppendUnavailable =>
          if attempt + 1 == maxAttempts || !hasPolicy {
            r := Err(LogletUnavailable);
            return;
          }
          var failure := ReplaceOn(s0, snapshot, trail);
          if failure.Some? {
            r := Err(failure.value);
            return;
          }
      }
      assert false;
    }

    /** Seals the active Loglet of the cached chain. */
    method SealActive() returns (r: Result<bool>)
      requires Valid()
      modifies world`state, world`seals, this`cached
      ensures Valid() && Interference(old(world.state), world.state, world.reserved)
      ensures r.Ok? ==> old(cached).Some? && old(cached).value.chain.value.Active().segmentId in world.seals
      ensures Undisturbed() && old(cached).Some? ==> r == Ok(true)
    {
      hide Inv, Grows, Interference;
      InterferenceReflexive(world.state, world.reserved);
      if cached.None? {
        return Err(ChainUnavailable);
      }
      if !hasProvider {
        return Err(LogletUnavailable);
      }
      SnapshotFacts(world.state, cached.value);
      ghost var s0 := world.state;
      var done := world.LogletSeal(cached.value.chain.value.Active().segmentId);
      StillInstalled(s0, s0, world.state, world.reserved, cached);
      Resume(s0);
      r := if done then Ok(true) else Err(LogletUnavailable);
    }

    /** Checks the cached chain's active Loglet once. */
    method CheckActive(ghost s0: State, ghost trail: seq<Look>) returns (local: Option<LogletTail>)
      requires Valid() && cached.Some? && hasProvider && Grows(s0, world.state) && Moving(world.state, trail)
      requires trail != [] ==>
        MovedOn(world.state, trail[|trail| - 1], |world.writes|, cached.value.version)
      modifies world`state, this`cached
      ensures Valid() && Grows(s0, world.state) && cached.Some? && Listing(old(cached).value)
      ensures Installed(world.state, old(cached).value)
      ensures Moving(world.state, trail + [Look(old(cached).value.version, |world.writes|)])
      ensures local.Some? ==>
        var tail := ActiveOf(old(cached).value).virtualStart + local.value.tail;
        && TailOf(world.state, old(cached).value.version, tail)
        && (!local.value.isSealed ==> AllAcksBelow(s0.acks, tail))
        && (local.value.isSealed ==> SealedThrough(world.state, old(cached).value.version, tail))
      ensures world.undisturbed ==> cached == old(cached)
      ensures world.undisturbed && AnswersOpen(old(world.state), old(cached).value, world.script) ==>
        world.state.chains == old(world.state).chains
      ensures world.undisturbed ==>
        var id := ActiveId(old(cached).value);
        MayAnswer(LogletOf(old(world.state), id), ScriptOf(world.script, id)) ==>
          && local == Some(ScriptOf(world.script, id)) && OnlyLoglet(old(world.state), world.state, id)
          && LogletOf(world.state, id).acked == LogletOf(old(world.state), id).acked
    {
      hide Inv, Grows, Interference, AckedBelow, SealedThrough, TailOf, AllAcksBelow, MayAnswer, Moving, OnlyLoglet,
        MovedOn;
      var snapshot := cached.value;
      ghost var s := world.state;
      SnapshotFacts(s, snapshot);
      InterferenceReflexive(s, world.reserved);
      assert Moving(s, trail + [Look(snapshot.version, |world.writes|)]) by {
        MovesFurther(s, trail, Look(snapshot.version, |world.writes|));
      }
      local := world.LogletCheckTail(snapshot.chain.value.Active().segmentId);
      ghost var t := world.state;
      StillInstalled(s, s, t, world.reserved, cached);
      Resume(s);
      GrowsTransitive(s0, s, world.state);
      InterferenceGives(s, world.state, world.reserved);
      MovingStays(s, world.state, trail + [Look(snapshot.version, |world.writes|)]);
      SameChains(s, t, snapshot.chain.value.Active().segmentId);
      if local.Some? {
        TailMeaning(s, t, world.state, world.reserved, snapshot, local.value);
        if !local.value.isSealed {
          AcksBelowEarlier(s0, s, snapshot.chain.value.Active().virtualStart + local.value.tail);
        }
      }
    }

    /**
     The virtual tail, and the version `through` which it was checked. An open one is above everything
     acknowledged before the call began, however old that version; a sealed one, returned only by the last
     attempt, is above what went to segments up to the checked one, and so above everything if that
     version knows every segment there was when the call began.
     */
    method CheckTail() returns (r: Result<LogletTail>, ghost through: nat, ghost trail: seq<Look>)
      requires Valid()
      modifies world`state, world`seals, world`registerReads, world`drops, world`writes, world`reserved, this`cached
      ensures Valid() && Grows(old(world.state), world.state) && world.drops == old(world.drops)
      ensures r.Ok? ==> TailOf(world.state, through, r.value.tail)
      ensures r.Ok? && !r.value.isSealed ==> AllAcksBelow(old(world.state).acks, r.value.tail)
      ensures r.Ok? && r.value.isSealed ==>
        && SealedThrough(world.state, through, r.value.tail)
        && (LastSince(old(world.state), world.state, through) ==> AllAcksBelow(old(world.state).acks, r.value.tail))
      ensures old(cached).Some? ==> cached.Some?
      ensures r.Ok? ==> trail != [] && through == trail[|trail| - 1].version
      ensures r.Ok? && r.value.isSealed ==> |trail| == maxAttempts
      ensures Moving(world.state, trail)
      ensures Undisturbed() && old(cached).Some? && Tidy(old(world.state), world.script) ==>
        TailAsScripted(old(world.state), old(cached).value, world.script, maxAttempts, r)
      ensures Undisturbed() && old(cached).Some? && AnswersOpen(old(world.state), old(cached).value, world.script) ==>
        cached == old(cached) && world.state.chains == old(world.state).chains
    {
      hide Inv, Grows, Interference, AckedBelow, SealedThrough, TailOf, LastSince, AllAcksBelow, MayAnswer, Tidy,
        TailAsScripted, Moving, RolledForward, OnlyLoglet, TailFollow, TailUndetermined, MovedOn;
      through, trail := 0, [];
      ghost var s0, before, script := world.state, cached, world.script;
      ghost var scripted := Undisturbed() && before.Some? && Tidy(s0, script);
      NotMoving(s0);
      GrowsReflexive(s0);
      if before.Some? {
        TailStart(s0, before.value, script, maxAttempts);
      }
      r := Err(LogletUnavailable);
      for attempt := 0 to maxAttempts
        invariant Valid() && Grows(s0, world.state) && world.drops == old(world.drops)
        invariant attempt < maxAttempts
        invariant old(cached).Some? ==> cached.Some?
        invariant |trail| == attempt && Moving(world.state, trail)
        invariant 0 < attempt && cached.Some? ==>
          MovedOn(world.state, trail[attempt - 1], |world.writes|, cached.value.version)
        invariant scripted ==> TailFollow(s0, world.state, before.value, cached, script, maxAttempts, attempt)
        invariant Undisturbed() && before.Some? && AnswersOpen(s0, before.value, script) ==>
          attempt == 0 && cached == before && world.state == s0
      {
        if cached.None? {
          r := Err(ChainUnavailable);
          return;
        }
        if !hasProvider {
          r := Err(LogletUnavailable);
          return;
        }
        var snapshot := cached.value;
        ghost var s := world.state;
        SnapshotFacts(s, snapshot);
        var active := snapshot.chain.value.Active();
        var local := CheckActive(s0, trail);
        trail := trail + [Look(snapshot.version, |world.writes|)];
        ghost var u := world.state;
        if scripted {
          TailFollowed(s0, s, before.value, snapshot, script, maxAttempts, attempt, local);
        }
        if scripted && TailUndetermined(s0, before.value, script, maxAttempts) {
          TailFree(s0, before.value, script, maxAttempts);
        }
        if local.None? {
          if attempt + 1 == maxAttempts || !hasPolicy {
            r := Err(LogletUnavailable);
            return;
          }
          var failure := ReplaceOn(s0, snapshot, trail);
          if failure.Some? {
            r := Err(failure.value);
            return;
          }
        } else {
          var result := LogletTail(active.virtualStart + local.value.tail, local.value.isSealed);
          through := snapshot.version;
          if !local.value.isSealed {
            r := Ok(result);
            return;
          }
          if attempt + 1 == maxAttempts {
            LastSinceCovers(s0, u, through, result.tail);
            r := Ok(result);
            return;
          }
          var failure := RollOn(s0, snapshot, trail);
          if scripted && !TailUndetermined(s0, before.value, script, maxAttempts) {
            TailRolled(s0, u, world.state, before.value, cached, script, maxAttempts, failure);
          }
          if failure.Some? {
            r := Err(failure.value);
            return;
          }
        }
      }
      assert false;
    }

    /** Trims the first segment to its end and then drops it, as one step from the cached chain or not at all. */
    method ReconfigTruncate() returns (r: Result<bool>)
      requires Valid()
      modifies world`state, world`requests, world`shortfalls, world`drops, world`writes, this`cached
      ensures Valid() && Grows(old(world.state), world.state)
      ensures old(cached).Some? ==> cached.Some?
      ensures r == Ok(true) ==>
        && old(cached).Some? && 1 < |old(cached).value.chain.value.segments|
        && cached == Some(NextVersion(old(cached).value, Truncated(old(cached).value.chain.value)))
      ensures r == Ok(false) ==>
        && old(cached).Some? && cached.Some?
        && (|| |old(cached).value.chain.value.segments| == 1 || old(world.shortfalls) < world.shortfalls
            || old(cached).value.version < cached.value.version)
      ensures Undisturbed() && old(cached) == Some(RegisterOf(old(world.state))) ==>
        && r == Ok(1 < |old(cached).value.chain.value.segments|)
        && cached == Some(RegisterOf(world.state))
      ensures old(world.shortfalls) <= world.shortfalls
      ensures old(world.requests) <= world.requests && old(world.drops) <= world.drops
      ensures forall q :: q in world.requests - old(world.requests) ==>
        old(cached).Some? && TrimsFirst(old(cached).value, q) && RequestEstablished(world.state, q)
      ensures forall d :: d in world.drops - old(world.drops) ==>
        old(cached).Some? && IsFirst(old(cached).value, d) && FullyTrimmed(world.state, d)
    {
      hide Inv, Grows, Interference, Truncated;
      ghost var s0 := world.state;
      GrowsReflexive(s0);
      if cached.None? {
        return Err(ChainUnavailable);
      }
      if !hasProvider {
        return Err(LogletUnavailable);
      }
      var snapshot := cached.value;
      SnapshotFacts(s0, snapshot);
      if |snapshot.chain.value.segments| == 1 {
        return Ok(false);
      }
      var first := snapshot.chain.value.First();
      snapshot.chain.value.RangesAscend(0, 1);
      if first.virtualStop.None? {
        return Err(ChainUnavailable);
      }
      InterferenceReflexive(s0, world.reserved);
      assert first.Valid();
      var localStop := first.virtualStop.value - first.virtualStart;
      var trimmed := world.LogletPrefixTrim(first.segmentId, localStop);
      ghost var t := world.state;
      StillInstalled(s0, s0, t, world.reserved, cached);
      Resume(s0);
      ghost var u := world.state;
      FirstStopEstablished(s0, u, snapshot);
      if trimmed.None? {
        return Err(LogletUnavailable);
      }
      if trimmed.value < localStop {
        return Ok(false);
      }
      InterferenceGives(t, u, world.reserved);
      FullyTrimmedStays(t, u, first);
      TruncateFits(u, snapshot);
      r := InstallChain(snapshot, Truncated(snapshot.chain.value), TruncateAction);
      FullyTrimmedStays(u, world.state, first);
      GrowsGives(u, world.state, first.segmentId);
      GrowsTransitive(s0, u, world.state);
    }

    /**
     Gives a closed segment another configuration; its addresses do not change. Success means that the
     installed chain then cached lists the segment with that configuration: the old version if it did so
     already, and otherwise the next one, which differs from it in this configuration alone.
     */
    method ReconfigModify(update: LogletConfigurationUpdate) returns (r: Result<bool>)
      requires Valid()
      modifies world`state, world`drops, world`writes, this`cached
      ensures Valid() && Grows(old(world.state), world.state) && world.drops == old(world.drops)
      ensures r == Ok(true) ==>
        old(cached).Some? && cached.Some? && exists i: nat :: Reconfigured(old(cached).value, cached.value, i, update)
      ensures r == Ok(false) ==> old(cached).Some? && cached.Some? && old(cached).value.version < cached.value.version
      ensures r == Err(ChainUnavailable) <==> old(cached).None?
      ensures r == Err(InvalidArgument) <==>
        (old(cached).Some? && !HasClosed(old(cached).value.chain.value, update.segmentId))
      ensures r.Err? ==> r.error == ChainUnavailable || r.error == InvalidArgument || r.error == MetaStoreUnavailable
      ensures world.undisturbed && old(cached) == Some(RegisterOf(old(world.state))) ==>
        HasClosed(old(cached).value.chain.value, update.segmentId) ==> r == Ok(true)
    {
      hide Inv, Grows, Interference, Modified;
      ghost var s0 := world.state;
      GrowsReflexive(s0);
      if cached.None? {
        return Err(ChainUnavailable);
      }
      var snapshot := cached.value;
      SnapshotFacts(s0, snapshot);
      var segments := snapshot.chain.value.segments;
      var index := 0;
      while index < |segments| && segments[index].segmentId != update.segmentId
        invariant index <= |segments|
        invariant forall i :: 0 <= i < index ==> segments[i].segmentId != update.segmentId
      {
        index := index + 1;
      }
      if index == |segments| {
        return Err(InvalidArgument);
      }
      var selected := segments[index];
      if selected.virtualStop.None? {
        return Err(InvalidArgument);
      }
      assert Modifies(snapshot.chain.value, index, update);
      if selected.loglet == update.loglet {
        assert Reconfigured(snapshot, snapshot, index, update);
        return Ok(true);
      }
      ModifyFits(s0, snapshot, index, update.loglet);
      var candidate := Modified(snapshot.chain.value, index, update.loglet);
      ModifiedDiffers(snapshot, index, update);
      r := InstallChain(snapshot, candidate, ModifyAction(index, update.loglet));
    }

    /** Trims every segment of the chain below `limit`, in order; stops where a Loglet falls short. */
    method TrimSegments(snapshot: VersionedLogChain, limit: nat) returns (r: Result<Option<nat>>)
      requires Valid() && Installed(world.state, snapshot)
      modifies world`state, world`requests, world`shortfalls, this`cached
      ensures Valid() && Interference(old(world.state), world.state, world.reserved)
      ensures old(cached).Some? ==> cached.Some?
      ensures old(world.requests) <= world.requests
      ensures world.requests <= old(world.requests) + TrimPlan(snapshot, |snapshot.chain.value.segments|, limit)
      ensures r == Ok(None) ==>
        && world.requests == old(world.requests) + TrimPlan(snapshot, |snapshot.chain.value.segments|, limit)
        && TrimmedTo(world.state, snapshot, |snapshot.chain.value.segments|, limit)
      ensures old(world.shortfalls) <= world.shortfalls
      ensures r.Ok? ==> (r.value.Some? <==> old(world.shortfalls) < world.shortfalls)
      ensures Undisturbed() ==> r == Ok(None) && cached == old(cached) && world.state.chains == old(world.state.chains)
      ensures r.Ok? && r.value.Some? ==>
        && r.value.value < limit
        && TrimmedTo(world.state, snapshot, |snapshot.chain.value.segments|, r.value.value)
    {
      hide Inv, Grows, Interference, TrimmedTo, TrimPlan;
      ghost var s0 := world.state;
      InterferenceReflexive(s0, world.reserved);
      SnapshotFacts(s0, snapshot);
      var segments := snapshot.chain.value.segments;
      NothingTrimmed(s0, snapshot, limit);
      assert TrimPlan(snapshot, 0, limit) == {} by { NothingPlanned(snapshot, limit); }
      for i := 0 to |segments|
        invariant Valid() && Interference(s0, world.state, world.reserved)
        invariant old(cached).Some? ==> cached.Some?
        invariant world.requests == old(world.requests) + TrimPlan(snapshot, i, limit)
        invariant TrimmedTo(world.state, snapshot, i, limit)
        invariant world.shortfalls == old(world.shortfalls)
        invariant world.undisturbed ==> cached == old(cached) && world.state.chains == s0.chains
      {
        ghost var s := world.state;
        var segment := segments[i];
        PlanGrows(snapshot, i, limit);
        if limit <= segment.virtualStart {
          RestAbove(s, snapshot, i, limit);
          return Ok(None);
        }
        var target := match segment.virtualStop
          case None => limit
          case Some(stop) => if limit < stop then limit else stop;
        assert segment.Valid();
        var localTarget := target - segment.virtualStart;
        var watermark := world.LogletPrefixTrim(segment.segmentId, localTarget);
        ghost var t := world.state;
        StillInstalled(s0, s, t, world.reserved, cached);
        Resume(s0);
        ghost var u := world.state;
        InterferenceGives(s, t, world.reserved);
        InterferenceGives(t, u, world.reserved);
        GrowsTransitive(s, t, u);
        if watermark.None? {
          return Err(LogletUnavailable);
        }
        TrimmedToStays(s, u, snapshot, i, limit);
        GrowsGives(t, u, segment.segmentId);
        if watermark.value < localTarget {
          FellShort(u, snapshot, i, limit, localTarget, watermark.value);
          return Ok(Some(segment.virtualStart + watermark.value));
        }
        TrimmedOne(u, snapshot, i, limit, localTarget);
      }
      r := Ok(None);
    }

    /**
     Trims the log below `limit` and drops the segments that end there. It discards nothing at or above
     `limit`, and drops only segments that end at or below it and are trimmed to their end. `use` names the
     version whose tail was checked and the version read from the cache afterwards: while both have the
     same active segment, or `limit` does not reach into the latter's, no trim passes an established tail.
     */
    method PrefixTrim(limit: int) returns (r: Result<nat>, ghost use: TrimUse)
      requires Valid()
      modifies world, this`cached
      ensures Valid() && Grows(old(world.state), world.state)
      ensures limit < 0 ==> r == Err(InvalidArgument)
      ensures old(world.requests) <= world.requests && old(world.drops) <= world.drops
      ensures use.NoTrim? ==> world.requests == old(world.requests)
      ensures use.Trim? ==> 0 <= limit && UseFits(world.state, use, limit)
      ensures use.Trim? ==> forall q :: q in world.requests - old(world.requests) ==>
        && RequestBelow(world.state, q, limit)
        && (Planned(world.state, use.reread, limit, q) || RequestEstablished(world.state, q))
        && (Steady(world.state, use, limit) ==> RequestEstablished(world.state, q))
      ensures forall d :: d in world.drops - old(world.drops) ==> DroppedBelow(world.state, d, limit)
      ensures r.Ok? ==> exists v :: DiscardedBelow(world.state, v, r.value)
      ensures r.Ok? && world.shortfalls == old(world.shortfalls) ==> limit <= r.value
      ensures r.Ok? && limit < r.value ==> cached.Some? && r.value == cached.value.chain.value.First().virtualStart
      ensures Undisturbed() && old(cached) == Some(RegisterOf(old(world.state))) && 0 <= limit ==>
        Tidy(old(world.state), world.script) ==>
          TrimsAsScripted(old(world.state), old(cached).value, world.script, limit, r, maxAttempts, cached)
    {
      hide Inv, Grows, Interference, TrimmedTo, TailOf, Bounded, RequestEstablished, RequestBelow, DroppedBelow,
        DiscardedBelow, SealedThrough, AllAcksBelow, FullyTrimmed, TrimsFirst, IsFirst, TrimPlan, UseFits, Steady,
        Planned, LastSince, MayAnswer, Pruned;
      use := NoTrim;
      ghost var s0 := world.state;
      GrowsReflexive(s0);
      if limit < 0 {
        r := Err(InvalidArgument);
        return;
      }
      if cached.None? {
        r := Err(ChainUnavailable);
        return;
      }
      if !hasProvider {
        r := Err(LogletUnavailable);
        return;
      }
      SnapshotFacts(s0, cached.value);
      var start := cached.value.chain.value.First().virtualStart;
      if limit <= start {
        BelowFirstTrimmed(s0, cached.value);
        r := Ok(start);
        return;
      }
      var tail, through, trail := CheckTail();
      ghost var s1 := world.state;
      if tail.Err? {
        r := Err(tail.error);
        return;
      }
      if tail.value.tail < limit {
        r := Err(InvalidArgument);
        return;
      }
      var snapshot := cached.value;
      ghost var plan := TrimPlan(snapshot, |snapshot.chain.value.segments|, limit);
      use := Trim(through, snapshot.version);
      UseNow(s1, use, limit, tail.value.tail);
      var short := TrimSegments(snapshot, limit);
      ghost var s2 := world.state;
      InterferenceGives(s1, s2, world.reserved);
      GrowsTransitive(s0, s1, s2);
      ghost var asked := world.requests - old(world.requests);
      PlanMeaning(s1, s2, snapshot, use, limit, asked);
      if short.Err? {
        r := Err(short.error);
        return;
      }
      if short.value.Some? {
        TrimmedMeans(s2, snapshot, short.value.value);
        r := Ok(short.value.value);
        return;
      }
      ghost var before := world.requests;
      var failure := DropTrimmed(limit);
      ghost var s3 := world.state;
      GrowsTransitive(s1, s2, s3);
      PlanMeaning(s1, s3, snapshot, use, limit, asked);
      assert world.requests - old(world.requests) == asked + (world.requests - before);
      GrowsTransitive(s0, s2, s3);
      if failure.Some? {
        r := Err(failure.value);
        return;
      }
      SnapshotFacts(s3, cached.value);
      TrimmedToStays(s2, s3, snapshot, |snapshot.chain.value.segments|, limit);
      CacheStays(s2, s3, Some(snapshot));
      TrimmedMeans(s3, snapshot, limit);
      BelowFirstTrimmed(s3, cached.value);
      var first := cached.value.chain.value.First().virtualStart;
      r := Ok(if limit < first then first else limit);
    }

    /** Drops leading segments that end at or below `limit`, one reconfiguration at a time. */
    method DropTrimmed(limit: nat) returns (failure: Option<Failure>)
      requires Valid() && cached.Some?
      modifies world`state, world`requests, world`shortfalls, world`drops, world`writes, this`cached
      ensures Valid() && Grows(old(world.state), world.state) && cached.Some?
      ensures old(world.requests) <= world.requests && old(world.drops) <= world.drops
      ensures old(world.shortfalls) <= world.shortfalls
      ensures Undisturbed() && old(cached) == Some(RegisterOf(old(world.state))) ==>
        failure.None? && Pruned(old(cached).value, cached.value, limit, maxAttempts)
      ensures forall q :: q in world.requests - old(world.requests) ==>
        RequestBelow(world.state, q, limit) && RequestEstablished(world.state, q)
      ensures forall d :: d in world.drops - old(world.drops) ==> DroppedBelow(world.state, d, limit)
    {
      hide Inv, Grows, Interference, RequestEstablished, RequestBelow, DroppedBelow, FullyTrimmed, TrimsFirst, IsFirst,
        PrunedBy, Truncated;
      ghost var s0 := world.state;
      GrowsReflexive(s0);
      SnapshotFacts(s0, cached.value);
      PrunedNot(cached.value, limit);
      for attempt := 0 to maxAttempts
        invariant Valid() && Grows(s0, world.state) && cached.Some?
        invariant old(world.requests) <= world.requests && old(world.drops) <= world.drops
        invariant old(world.shortfalls) <= world.shortfalls
        invariant Undisturbed() && old(cached) == Some(RegisterOf(s0)) ==>
          cached == Some(RegisterOf(world.state)) && PrunedBy(old(cached).value, cached.value, limit, attempt)
        invariant forall q :: q in world.requests - old(world.requests) ==>
          RequestBelow(world.state, q, limit) && RequestEstablished(world.state, q)
        invariant forall d :: d in world.drops - old(world.drops) ==> DroppedBelow(world.state, d, limit)
      {
        var current := cached.value;
        ghost var s := world.state;
        SnapshotFacts(s, current);
        if |current.chain.value.segments| == 1 {
          return None;
        }
        var first := current.chain.value.First();
        if first.virtualStop.None? || limit < first.virtualStop.value {
          return None;
        }
        ghost var requests, drops := world.requests, world.drops;
        if Undisturbed() && old(cached) == Some(RegisterOf(s0)) {
          PrunedOne(old(cached).value, current, limit, attempt);
        }
        var dropped := ReconfigTruncate();
        DropsBelow(s, world.state, current, limit, requests - old(world.requests), world.requests - requests,
                   drops - old(world.drops), world.drops - drops);
        GrowsTransitive(s0, s, world.state);
        if dropped.Err? {
          return Some(dropped.error);
        }
      }
      failure := None;
    }

    /**
     The first entry of [from, to) in the cached chain's address space, scanning its segments in order.
     No entry established before the call is passed over in a segment the chain knows, unless discarded.
     */
    method ReadNext(from: int, to: int) returns (r: Result<Option<VirtualLogEntry>>)
      requires Valid()
      modifies world`state, this`cached
      ensures Valid() && Interference(old(world.state), world.state, world.reserved)
      ensures from < 0 || to <= from ==> r == Err(InvalidArgument)
      ensures r.Err? ==> r.error != PositionUnavailable
      ensures r.Ok? ==> old(cached).Some? && Installed(world.state, old(cached).value)
      ensures r == Ok(None) ==> NothingPassed(old(world.state), world.state, old(cached).value.version, from, to)
      ensures r.Ok? && r.value.Some? ==>
        && from <= r.value.value.position < to
        && EntryFits(world.state, old(cached).value.chain.value, r.value.value)
        && NothingPassed(old(world.state), world.state, old(cached).value.version, from, r.value.value.position)
      ensures Undisturbed() && old(cached).Some? && 0 <= from < to ==>
        && r.Ok? && world.state == old(world.state) && cached == old(cached)
        && match r.value
           case None => NothingUpTo(world.state, old(cached).value, |old(cached).value.chain.value.segments|, from, to)
           case Some(e) => Finds(world.state, old(cached).value, from, to, e)
    {
      hide Inv, Grows, Interference, NothingPassed, PassedOnly, NoneSkipped, EntryFits, NothingUpTo, FirstFound,
        Finds, FirstEntry, NothingIn;
      ghost var s0 := world.state;
      InterferenceReflexive(s0, world.reserved);
      if from < 0 || to <= from {
        return Err(InvalidArgument);
      }
      if cached.None? {
        return Err(ChainUnavailable);
      }
      if !hasProvider {
        return Err(LogletUnavailable);
      }
      var snapshot := cached.value;
      SnapshotFacts(s0, snapshot);
      var segments := snapshot.chain.value.segments;
      NothingRead(s0, snapshot, from, to);
      NothingYet(s0, snapshot, from, to);
      for i := 0 to |segments|
        invariant Valid() && Interference(s0, world.state, world.reserved)
        invariant PassedOnly(s0, world.state, snapshot, i, from, to)
        invariant world.undisturbed ==>
          world.state == s0 && cached == old(cached) && NothingUpTo(s0, snapshot, i, from, to)
      {
        ghost var s := world.state;
        InterferenceGives(s0, s, world.reserved);
        var segment := segments[i];
        var start := if from < segment.virtualStart then segment.virtualStart else from;
        var stop := match segment.virtualStop
          case None => to
          case Some(end) => if to < end then to else end;
        if start < stop {
          var localStart, localStop := start - segment.virtualStart, stop - segment.virtualStart;
          var reply := world.LogletReadNext(segment.segmentId, localStart, localStop);
          ghost var t := world.state;
          StillInstalled(s0, s, t, world.reserved, cached);
          Resume(s0);
          ghost var u := world.state;
          InterferenceGives(s, t, world.reserved);
          InterferenceGives(t, u, world.reserved);
          GrowsGives(t, u, segment.segmentId);
          match reply
          case ReadUnavailable =>
            return Err(LogletUnavailable);
          case NoEntry =>
            ReadThrough(s0, s, t, u, snapshot, i, from, to, stop);
            NothingHere(s0, snapshot, i, from, to);
          case EntryAt(local, command) =>
            if world.undisturbed {
              FirstInRange(LogletOf(s0, segment.segmentId), localStart, localStop, local);
            }
            if local < start - segment.virtualStart || stop - segment.virtualStart <= local {
              return Err(OutsideRange);
            }
            var e := VirtualLogEntry(segment.virtualStart + local, command, segment.segmentId, local);
            InterferenceGives(s0, u, world.reserved);
            ReadUpTo(s0, s, t, u, world.reserved, snapshot, i, from, to, e.position);
            assert EntryFits(u, snapshot.chain.value, e) by { EntryHolds(u, snapshot.chain.value, i, e); }
            if world.undisturbed {
              FoundFirst(s0, snapshot, i, from, to, e);
            }
            return Ok(Some(e));
        } else {
          EmptyOverlap(s0, s, snapshot, i, from, to);
          NothingHere(s0, snapshot, i, from, to);
        }
      }
      InterferenceGives(s0, world.state, world.reserved);
      PassedMeans(s0, world.state, world.reserved, snapshot, from, to);
      r := Ok(None);
    }

    /** The entry at one position: for a position acknowledged in a segment the chain knows, that command. */
    method Read(position: int) returns (r: Result<VirtualLogEntry>)
      requires Valid()
      modifies world`state, this`cached
      ensures Valid() && Interference(old(world.state), world.state, world.reserved)
      ensures r.Ok? ==>
        && r.value.position == position && old(cached).Some? && Installed(world.state, old(cached).value)
        && EntryFits(world.state, old(cached).value.chain.value, r.value)
        && HoldsAcked(world.state, old(cached).value.version, r.value)
        && (SeesAll(world.state, old(cached).value.version, position) ==> HoldsAll(world.state, r.value))
      ensures r == Err(PositionUnavailable) && 0 <= position ==>
        && old(cached).Some?
        && NothingPassed(old(world.state), world.state, old(cached).value.version, position, position + 1)
      ensures position < 0 ==> r == Err(PositionUnavailable)
      ensures Undisturbed() && old(cached).Some? && 0 <= position ==>
        match r
        case Ok(e) => Finds(world.state, old(cached).value, position, position + 1, e)
        case Err(error) =>
          && error == PositionUnavailable
          && NothingUpTo(world.state, old(cached).value, |old(cached).value.chain.value.segments|, position,
                         position + 1)
    {
      hide Inv, Grows, Interference, NothingPassed, EntryFits, HoldsAcked, NothingUpTo, Finds;
      ghost var s0 := world.state;
      ghost var snapshot := cached;
      if position < 0 {
        InterferenceReflexive(s0, world.reserved);
        return Err(PositionUnavailable);
      }
      var found := ReadNext(position, position + 1);
      if found.Err? {
        return Err(found.error);
      }
      if found.value.None? {
        return Err(PositionUnavailable);
      }
      InterferenceGives(s0, world.state, world.reserved);
      EntryIsAcked(world.state, snapshot.value, found.value.value);
      SeenIsAll(world.state, snapshot.value.version, found.value.value);
      r := Ok(found.value.value);
    }
  }

  /** Whatever was acknowledged at the entry's position, in a segment version `v` knows, is this entry. */
  ghost predicate HoldsAcked(s: State, v: nat, e: VirtualLogEntry) {
    && 0 < v <= |s.windows|
    && (forall a :: a in s.acks ==>
          && 0 < a.version <= |s.windows|
          && (KnownTo(s, v, a) && a.position == e.position ==>
                a.command == e.command && a.segmentId == e.segmentId && a.local == e.localPosition))
  }

  /** No segment later than those of version `v` starts at or below the position. */
  ghost predicate SeesAll(s: State, v: nat, position: int) {
    0 < v <= |s.windows| && NoneLaterBelow(s, s.windows[v - 1].high, |s.placed|, position)
  }

  /** Whatever was acknowledged at the entry's position, anywhere, is this entry. */
  ghost predicate HoldsAll(s: State, e: VirtualLogEntry) {
    forall a :: a in s.acks && a.position == e.position ==>
      a.command == e.command && a.segmentId == e.segmentId && a.local == e.localPosition
  }

  lemma SeenIsAll(s: State, v: nat, e: VirtualLogEntry)
    requires Inv(s) && HoldsAcked(s, v, e)
    ensures SeesAll(s, v, e.position) ==> HoldsAll(s, e)
  {
    hide Inv;
    if SeesAll(s, v, e.position) {
      forall a | a in s.acks && a.position == e.position
        ensures a.command == e.command && a.segmentId == e.segmentId && a.local == e.localPosition
      {
        SeenIsKnown(s, v, a);
      }
    }
  }

  lemma SeenIsKnown(s: State, v: nat, a: Ack)
    requires Inv(s) && a in s.acks && SeesAll(s, v, a.position)
    ensures 0 < a.version <= |s.windows| && KnownTo(s, v, a)
  {
    hide Inv;
    AckFacts(s, a);
    SameLengths(s);
    var w := WindowFacts(s, a.version - 1, a.version - 1);
    if s.windows[v - 1].high < w.high {
      Ascend(s, s.windows[v - 1].high, PlaceOfAck(s, a));
    }
  }

  lemma EntryIsAcked(s: State, snapshot: VersionedLogChain, e: VirtualLogEntry)
    requires Inv(s) && Installed(s, snapshot) && EntryFits(s, snapshot.chain.value, e)
    ensures HoldsAcked(s, snapshot.version, e)
  {
    hide Inv;
    SnapshotFacts(s, snapshot);
    var i :| 0 <= i < |snapshot.chain.value.segments| && EntryIn(snapshot.chain.value.segments[i], e);
    forall a | a in s.acks
      ensures 0 < a.version <= |s.windows|
      ensures KnownTo(s, snapshot.version, a) && a.position == e.position ==>
        a.command == e.command && a.segmentId == e.segmentId && a.local == e.localPosition
    {
      AckFacts(s, a);
      var k := SegmentFacts(s, snapshot, i);
      var j := PlaceOfAck(s, a);
      if KnownTo(s, snapshot.version, a) && a.position == e.position {
        if j < k {
          AckBefore(s, a, k);
        } else if k < j {
          Ascend(s, k + 1, j);
        }
      }
    }
  }

  ghost predicate HasClosed(chain: LogChain, segmentId: string) {
    exists i :: 0 <= i < |chain.segments|
      && chain.segments[i].segmentId == segmentId && chain.segments[i].virtualStop.Some?
  }

  /**
   `after` lists the closed segment at `i` with the update's configuration, and agrees with `before` on
   everything else; it is a new version exactly if that is a change.
   */
  ghost predicate Reconfigured(before: VersionedLogChain, after: VersionedLogChain, i: nat,
      update: LogletConfigurationUpdate)
  {
    && before.chain.Some? && after.chain.Some? && Modifies(before.chain.value, i, update)
    && var old_, new_ := before.chain.value.segments, after.chain.value.segments;
       && |new_| == |old_| && new_[i].loglet == update.loglet
       && new_[i].segmentId == old_[i].segmentId
       && new_[i].virtualStart == old_[i].virtualStart && new_[i].virtualStop == old_[i].virtualStop
       && (forall j :: 0 <= j < |old_| && j != i ==> new_[j] == old_[j])
       && after.version == before.version + if old_[i].loglet == update.loglet then 0 else 1
  }

  lemma ModifiedDiffers(before: VersionedLogChain, i: nat, update: LogletConfigurationUpdate)
    requires before.chain.Some? && Modifies(before.chain.value, i, update)
    requires before.chain.value.segments[i].loglet != update.loglet
    ensures Reconfigured(before, NextVersion(before, Modified(before.chain.value, i, update.loglet)), i, update)
  {
  }

  /** The update names the closed segment at `i`. */
  ghost predicate Modifies(chain: LogChain, i: nat, update: LogletConfigurationUpdate) {
    i < |chain.segments| && chain.segments[i].segmentId == update.segmentId && chain.segments[i].virtualStop.Some?
  }

  /** The request trims the first segment of the chain to its end. */
  ghost predicate TrimsFirst(snapshot: VersionedLogChain, q: TrimRequest) {
    && snapshot.chain.Some? && snapshot.chain.value.segments != []
    && var first := snapshot.chain.value.First();
       && first.virtualStop.Some? && q.segmentId == first.segmentId
       && first.virtualStart + q.local == first.virtualStop.value
  }

  ghost predicate IsFirst(snapshot: VersionedLogChain, d: LogSegment) {
    && snapshot.chain.Some? && 1 < |snapshot.chain.value.segments| && d == snapshot.chain.value.First()
  }

  /** The virtual tail lies in the active segment of version `v`, at a local tail that is established. */
  ghost predicate TailOf(s: State, v: nat, tail: nat) {
    && 0 < v <= |s.chains| && s.chains[v - 1].segments != []
    && var active := s.chains[v - 1].Active();
       active.virtualStart <= tail <= active.virtualStart + LogletOf(s, active.segmentId).established
  }

  /** Version `v` knows every segment there was at `s`. */
  ghost predicate LastSince(s: State, t: State, v: nat) {
    0 < v <= |t.windows| && |s.placed| <= t.windows[v - 1].high
  }

  lemma LastSinceCovers(s: State, t: State, v: nat, tail: nat)
    requires Grows(s, t) && SealedThrough(t, v, tail) && Inv(s)
    ensures LastSince(s, t, v) ==> AllAcksBelow(s.acks, tail)
  {
    hide Inv;
    if LastSince(s, t, v) {
      forall a | a in s.acks
        ensures a.position < tail
      {
        AckFacts(s, a);
        assert t.windows[a.version - 1] == s.windows[a.version - 1];
      }
    }
  }

  lemma AcksBelowEarlier(s: State, t: State, tail: nat)
    requires Grows(s, t) && AllAcksBelow(t.acks, tail)
    ensures AllAcksBelow(s.acks, tail)
  {
  }

  /** What a local check_tail that began at `s` and ended by `t` says of virtual positions. */
  lemma TailMeaning(s: State, t: State, u: State, reserved: seq<string>, snapshot: VersionedLogChain, local: LogletTail)
    requires Inv(s) && Installed(s, snapshot) && Interference(s, t, reserved) && Interference(t, u, reserved)
    requires snapshot.chain.Some? && snapshot.chain.value.segments != []
    requires var id := snapshot.chain.value.Active().segmentId;
      && AckedBelow(LogletOf(s, id), local.tail) && local.tail <= LogletOf(t, id).established
      && (local.isSealed ==> local.tail in LogletOf(t, id).sealedTails)
      && (!local.isSealed ==> LogletOf(s, id).sealedTails == {})
    ensures var tail := snapshot.chain.value.Active().virtualStart + local.tail;
      && TailOf(u, snapshot.version, tail)
      && (!local.isSealed ==> AllAcksBelow(s.acks, tail))
      && (local.isSealed ==> SealedThrough(u, snapshot.version, tail))
  {
    hide Inv, Grows;
    var v, active := snapshot.version, snapshot.chain.value.Active();
    InterferenceGives(s, t, reserved);
    InterferenceGives(t, u, reserved);
    GrowsGives(t, u, active.segmentId);
    if local.isSealed {
      SealedTailMeaning(u, v, local.tail);
    } else {
      OpenTailCoversAll(s, v, local.tail);
    }
  }

  lemma SealedTailMeaning(s: State, v: nat, tail: nat)
    requires Inv(s) && 0 < v <= |s.chains| && s.chains[v - 1].segments != []
    requires tail in LogletOf(s, s.chains[v - 1].Active().segmentId).sealedTails
    ensures SealedThrough(s, v, s.chains[v - 1].Active().virtualStart + tail)
  {
    hide Inv;
    SameLengths(s);
    LogletContract(s, s.chains[v - 1].Active().segmentId);
    forall a | a in s.acks
      ensures 0 < a.version <= |s.windows|
      ensures KnownTo(s, v, a) ==> a.position < s.chains[v - 1].Active().virtualStart + tail
    {
      TailCoversKnownTo(s, v, tail, a);
    }
  }

  lemma FirstStopEstablished(s: State, t: State, snapshot: VersionedLogChain)
    requires Inv(s) && Installed(s, snapshot) && Grows(s, t)
    requires snapshot.chain.value.segments != []
    ensures var first := snapshot.chain.value.First();
      first.virtualStop.Some? ==>
        && first.virtualStart <= first.virtualStop.value
        && RequestEstablished(t, TrimRequest(first.segmentId, first.virtualStop.value - first.virtualStart))
  {
    hide Inv;
    var k := SegmentFacts(s, snapshot, 0);
    GrowsGives(s, t, snapshot.chain.value.First().segmentId);
  }

  lemma TruncateFits(s: State, snapshot: VersionedLogChain)
    requires Inv(s) && Installed(s, snapshot)
    requires 1 < |snapshot.chain.value.segments| && FullyTrimmed(s, snapshot.chain.value.First())
    ensures |s.windows| == |s.chains|
    ensures snapshot.version == |s.chains| ==>
      && Enabled(s, TruncateAction)
      && After(s, TruncateAction).chains == s.chains + [Truncated(snapshot.chain.value)]
  {
    hide Inv, Truncated;
    SameLengths(s);
  }

  lemma ModifyFits(s: State, snapshot: VersionedLogChain, index: nat, configuration: LogletConfiguration)
    requires Inv(s) && Installed(s, snapshot) && index < |snapshot.chain.value.segments|
    requires snapshot.chain.value.segments[index].virtualStop.Some?
    ensures |s.windows| == |s.chains|
    ensures snapshot.version == |s.chains| ==>
      && Enabled(s, ModifyAction(index, configuration))
      && After(s, ModifyAction(index, configuration)).chains
         == s.chains + [Modified(snapshot.chain.value, index, configuration)]
  {
    hide Inv, Modified;
    SameLengths(s);
  }

  lemma CacheStays(s: State, t: State, cached: Option<VersionedLogChain>)
    requires Grows(s, t) && (cached.Some? ==> Installed(s, cached.value))
    ensures cached.Some? ==> Installed(t, cached.value)
  {
  }

  lemma StillInstalled(s0: State, s: State, t: State, reserved: seq<string>, cached: Option<VersionedLogChain>)
    requires Interference(s0, s, reserved) && Interference(s, t, reserved)
    requires cached.Some? ==> Installed(s, cached.value)
    ensures Interference(s0, t, reserved) && Inv(t)
    ensures cached.Some? ==> Installed(t, cached.value)
  {
    hide Inv, Grows;
    InterferenceTransitive(s0, s, t, reserved);
    InterferenceGives(s, t, reserved);
  }

  lemma SealedTailStays(s: State, t: State, reserved: seq<string>, segmentId: string, tail: nat)
    requires Interference(s, t, reserved) && tail in LogletOf(s, segmentId).sealedTails
    ensures tail in LogletOf(t, segmentId).sealedTails
  {
    hide Inv;
    GrowsGives(s, t, segmentId);
  }

  lemma BootstrapFits(s: State, initial: LogSegment)
    requires Inv(s) && initial.Valid() && initial.virtualStart == 0 && initial.virtualStop == None
    ensures s.chains == [] ==>
      && |s.windows| == 0 && Enabled(s, BootstrapAction(initial))
      && After(s, BootstrapAction(initial)).chains == s.chains + [LogChain([initial])]
  {
    hide AcksFit, DroppedTrimmed, HistorySteps, PlacedInOrder, ContractsHold, IsWindow;
  }

  lemma ExtendFits(s: State, snapshot: VersionedLogChain, next: NewLogletConfiguration, tail: nat)
    requires Inv(s) && Installed(s, snapshot) && next.segmentId != "" && Unused(s, next.segmentId)
    requires snapshot.chain.value.segments != []
    requires tail in LogletOf(s, snapshot.chain.value.Active().segmentId).sealedTails
    ensures |s.windows| == |s.chains|
    ensures snapshot.version == |s.chains| ==>
      && Enabled(s, ExtendAction(next, tail))
      && After(s, ExtendAction(next, tail)).chains == s.chains + [Extended(snapshot.chain.value, next, tail)]
  {
    hide Inv, Extended;
    SameLengths(s);
  }

  // ---- Trimming --------------------------------------------------------------------------------

  /** The segment's part below `bound` is trimmed. */
  ghost predicate SegmentTrimmed(s: State, segment: LogSegment, bound: int) {
    || bound <= segment.virtualStart
    || bound <= segment.virtualStart + LogletOf(s, segment.segmentId).trimmed
    || (&& segment.virtualStop.Some?
        && segment.virtualStop.value <= segment.virtualStart + LogletOf(s, segment.segmentId).trimmed)
  }

  ghost predicate TrimmedTo(s: State, snapshot: VersionedLogChain, n: nat, bound: int) {
    && snapshot.chain.Some? && n <= |snapshot.chain.value.segments|
    && forall j :: 0 <= j < n ==> SegmentTrimmed(s, snapshot.chain.value.segments[j], bound)
  }

  lemma NothingTrimmed(s: State, snapshot: VersionedLogChain, bound: int)
    requires snapshot.chain.Some?
    ensures TrimmedTo(s, snapshot, 0, bound)
  {
  }

  lemma TrimmedToStays(s: State, t: State, snapshot: VersionedLogChain, n: nat, bound: int)
    requires Grows(s, t) && TrimmedTo(s, snapshot, n, bound)
    ensures TrimmedTo(t, snapshot, n, bound)
  {
    hide Grows;
    forall j | 0 <= j < n
      ensures SegmentTrimmed(t, snapshot.chain.value.segments[j], bound)
    {
      assert SegmentTrimmed(s, snapshot.chain.value.segments[j], bound);
      GrowsGives(s, t, snapshot.chain.value.segments[j].segmentId);
    }
  }

  lemma RestAbove(s: State, snapshot: VersionedLogChain, i: nat, bound: int)
    requires snapshot.chain.Some? && snapshot.chain.value.Valid() && i < |snapshot.chain.value.segments|
    requires TrimmedTo(s, snapshot, i, bound) && bound <= snapshot.chain.value.segments[i].virtualStart
    ensures TrimmedTo(s, snapshot, |snapshot.chain.value.segments|, bound)
  {
    var chain := snapshot.chain.value;
    forall j | 0 <= j < |chain.segments|
      ensures SegmentTrimmed(s, chain.segments[j], bound)
    {
      if i < j {
        chain.RangesAscend(i, j);
        assert chain.segments[i].Valid();
      }
    }
  }

  lemma TrimmedOne(s: State, snapshot: VersionedLogChain, i: nat, bound: int, localTarget: nat)
    requires snapshot.chain.Some? && i < |snapshot.chain.value.segments| && TrimmedTo(s, snapshot, i, bound)
    requires var x := snapshot.chain.value.segments[i];
      && localTarget <= LogletOf(s, x.segmentId).trimmed
      && (x.virtualStart + localTarget == bound || x.virtualStop == Some(x.virtualStart + localTarget))
    ensures TrimmedTo(s, snapshot, i + 1, bound)
  {
  }

  lemma FellShort(s: State, snapshot: VersionedLogChain, i: nat, bound: int, localTarget: nat, watermark: nat)
    requires snapshot.chain.Some? && snapshot.chain.value.Valid() && i < |snapshot.chain.value.segments|
    requires TrimmedTo(s, snapshot, i, bound) && watermark < localTarget
    requires var x := snapshot.chain.value.segments[i];
      && watermark <= LogletOf(s, x.segmentId).trimmed && x.virtualStart + localTarget <= bound
      && (x.virtualStop.Some? ==> x.virtualStart + localTarget <= x.virtualStop.value)
    ensures TrimmedTo(s, snapshot, |snapshot.chain.value.segments|,
                      snapshot.chain.value.segments[i].virtualStart + watermark)
  {
    var chain := snapshot.chain.value;
    var p := chain.segments[i].virtualStart + watermark;
    forall j | 0 <= j < |chain.segments|
      ensures SegmentTrimmed(s, chain.segments[j], p)
    {
      if j < i {
        assert SegmentTrimmed(s, chain.segments[j], bound);
        chain.RangesAscend(j, i);
      } else if i < j {
        chain.RangesAscend(i, j);
      }
    }
  }

  /** A chain trimmed below `bound` has nothing acknowledged left there. */
  lemma TrimmedMeans(s: State, snapshot: VersionedLogChain, bound: int)
    requires Inv(s) && Installed(s, snapshot) && snapshot.chain.Some?
    requires TrimmedTo(s, snapshot, |snapshot.chain.value.segments|, bound)
    ensures DiscardedBelow(s, snapshot.version, bound)
  {
    hide Inv;
    SnapshotFacts(s, snapshot);
    forall a | a in s.acks
      ensures 0 < a.version <= |s.windows|
      ensures KnownTo(s, snapshot.version, a) && a.position < bound ==> a.local < LogletOf(s, a.segmentId).trimmed
    {
      AckFacts(s, a);
      if KnownTo(s, snapshot.version, a) && a.position < bound {
        AckTrimmed(s, snapshot, bound, a);
      }
    }
  }

  lemma AckTrimmed(s: State, snapshot: VersionedLogChain, bound: int, a: Ack)
    requires Inv(s) && Installed(s, snapshot) && a in s.acks && a.position < bound
    requires TrimmedTo(s, snapshot, |snapshot.chain.value.segments|, bound)
    requires |s.windows| == |s.chains| && 0 < a.version <= |s.windows| && KnownTo(s, snapshot.version, a)
    ensures a.local < LogletOf(s, a.segmentId).trimmed
  {
    hide Inv;
    var v := snapshot.version - 1;
    AckFacts(s, a);
    var k := PlaceOfAck(s, a);
    var w := WindowFacts(s, v, v);
    if k < w.low {
      AckBefore(s, a, k + 1);
      EndOf(s, v, k);
    } else {
      Index(s, v, k);
      assert SegmentTrimmed(s, snapshot.chain.value.segments[k - w.low], bound);
      if k + 1 < w.high {
        AckBefore(s, a, k + 1);
      }
    }
  }

  lemma OpenIsActive(chain: LogChain, i: nat)
    requires chain.Valid() && i < |chain.segments| && chain.segments[i].virtualStop.None?
    ensures chain.segments[i] == chain.Active()
  {
    if i + 1 < |chain.segments| {
      chain.RangesAscend(i, i + 1);
    }
  }

  lemma RequestsStay(s: State, t: State, requests: set<TrimRequest>, limit: int)
    requires Grows(s, t)
    ensures forall q :: q in requests && RequestBelow(s, q, limit) ==> RequestBelow(t, q, limit)
    ensures forall q :: q in requests && RequestEstablished(s, q) ==> RequestEstablished(t, q)
  {
    hide Grows;
    forall q | q in requests && RequestBelow(s, q, limit)
      ensures RequestBelow(t, q, limit)
    {
      RequestStays(s, t, q, limit);
    }
    forall q | q in requests && RequestEstablished(s, q)
      ensures RequestEstablished(t, q)
    {
      GrowsGives(s, t, q.segmentId);
    }
  }

  lemma RequestStays(s: State, t: State, q: TrimRequest, limit: int)
    requires Grows(s, t) && RequestBelow(s, q, limit)
    ensures RequestBelow(t, q, limit)
  {
    var k :| 0 <= k < |s.placed| && s.placed[k].segmentId == q.segmentId && s.placed[k].start + q.local <= limit;
    assert t.placed[k] == s.placed[k];
  }

  /** A limit no higher than what the chain's active segment has established. */
  ghost predicate Bounded(s: State, snapshot: VersionedLogChain, limit: nat) {
    && snapshot.chain.Some? && snapshot.chain.value.segments != []
    && var active := snapshot.chain.value.Active();
       limit <= active.virtualStart + LogletOf(s, active.segmentId).established
  }

  /** The trim a segment is asked for: up to `limit`, or to its stop if that comes first. */
  function RequestFor(segment: LogSegment, limit: nat): TrimRequest {
    var target := match segment.virtualStop
      case None => limit
      case Some(stop) => if stop < limit then stop else limit;
    TrimRequest(segment.segmentId, if target < segment.virtualStart then 0 else target - segment.virtualStart)
  }

  /** What a trim through the chain asks of its first `n` segments. */
  ghost function TrimPlan(snapshot: VersionedLogChain, n: nat, limit: nat): set<TrimRequest>
    requires snapshot.chain.Some? && n <= |snapshot.chain.value.segments|
  {
    var segments := snapshot.chain.value.segments;
    set i | 0 <= i < n && segments[i].virtualStart < limit :: RequestFor(segments[i], limit)
  }

  lemma NothingPlanned(snapshot: VersionedLogChain, limit: nat)
    requires snapshot.chain.Some?
    ensures TrimPlan(snapshot, 0, limit) == {}
  {
  }

  lemma PlanGrows(snapshot: VersionedLogChain, i: nat, limit: nat)
    requires snapshot.chain.Some? && snapshot.chain.value.Valid() && i < |snapshot.chain.value.segments|
    ensures TrimPlan(snapshot, i + 1, limit) <= TrimPlan(snapshot, |snapshot.chain.value.segments|, limit)
    ensures var x := snapshot.chain.value.segments[i];
      TrimPlan(snapshot, i + 1, limit)
      == TrimPlan(snapshot, i, limit) + if x.virtualStart < limit then {RequestFor(x, limit)} else {}
    ensures snapshot.chain.value.segments[i].virtualStart >= limit ==>
      TrimPlan(snapshot, |snapshot.chain.value.segments|, limit) == TrimPlan(snapshot, i, limit)
  {
    var chain := snapshot.chain.value;
    if limit <= chain.segments[i].virtualStart {
      forall j | i <= j < |chain.segments|
        ensures limit <= chain.segments[j].virtualStart
      {
        if i < j {
          chain.RangesAscend(i, j);
          assert chain.segments[i].Valid();
        }
      }
    }
  }

  /** Each planned trim discards nothing at or above `limit`. */
  lemma PlanBelow(s: State, snapshot: VersionedLogChain, limit: nat, i: nat)
    requires Inv(s) && Installed(s, snapshot) && i < |snapshot.chain.value.segments|
    requires snapshot.chain.value.segments[i].virtualStart < limit
    ensures var x := snapshot.chain.value.segments[i];
      && RequestBelow(s, RequestFor(x, limit), limit)
      && (x.virtualStop.Some? ==> RequestEstablished(s, RequestFor(x, limit)))
      && (x.virtualStop.None? ==> x == snapshot.chain.value.Active())
  {
    hide Inv;
    var k := SegmentFacts(s, snapshot, i);
    SnapshotFacts(s, snapshot);
    var x := snapshot.chain.value.segments[i];
    assert s.placed[k].segmentId == x.segmentId;
    if x.virtualStop.None? {
      OpenIsActive(snapshot.chain.value, i);
    }
  }

  /**
   A trim through a chain asks a Loglet to discard what it has not established exactly when the limit
   reaches into the chain's active segment beyond what that has established.
   */
  lemma TrimPassesExactly(s: State, snapshot: VersionedLogChain, limit: nat)
    requires Inv(s) && Installed(s, snapshot)
    ensures snapshot.chain.Some? && snapshot.chain.value.segments != []
    ensures (exists q :: q in TrimPlan(snapshot, |snapshot.chain.value.segments|, limit) && !RequestEstablished(s, q))
      <==> (snapshot.chain.value.Active().virtualStart < limit && !Bounded(s, snapshot, limit))
  {
    hide Inv, RequestBelow;
    SnapshotFacts(s, snapshot);
    var chain := snapshot.chain.value;
    var plan := TrimPlan(snapshot, |chain.segments|, limit);
    var last := |chain.segments| - 1;
    if chain.Active().virtualStart < limit {
      PlanBelow(s, snapshot, limit, last);
      assert RequestFor(chain.segments[last], limit) in plan;
    }
    forall q | q in plan && !RequestEstablished(s, q)
      ensures chain.Active().virtualStart < limit && !Bounded(s, snapshot, limit)
    {
      var i :| 0 <= i < |chain.segments| && chain.segments[i].virtualStart < limit
        && q == RequestFor(chain.segments[i], limit);
      PlanBelow(s, snapshot, limit, i);
    }
  }

  /** Which version's tail a trim was checked against, and which version it then read from the cache. */
  datatype TrimUse = NoTrim | Trim(checked: nat, reread: nat)

  ghost predicate UseFits(s: State, use: TrimUse, limit: nat) {
    && use.Trim? && 0 < use.reread <= |s.chains|
    && exists tail :: limit <= tail && TailOf(s, use.checked, tail)
  }

  /** The request belongs to a trim through the version read. */
  ghost predicate Planned(s: State, reread: nat, limit: nat, q: TrimRequest) {
    && 0 < reread <= |s.chains|
    && var snapshot := VersionedLogChain(reread, Some(s.chains[reread - 1]));
       q in TrimPlan(snapshot, |snapshot.chain.value.segments|, limit)
  }

  /** The two versions have one active segment, or the limit does not reach into the later read one. */
  ghost predicate Steady(s: State, use: TrimUse, limit: nat) {
    && use.Trim? && 0 < use.checked <= |s.chains| && 0 < use.reread <= |s.chains|
    && s.chains[use.checked - 1].segments != [] && s.chains[use.reread - 1].segments != []
    && (|| s.chains[use.checked - 1].Active().segmentId == s.chains[use.reread - 1].Active().segmentId
        || limit <= s.chains[use.reread - 1].Active().virtualStart)
  }

  lemma UseNow(s: State, use: TrimUse, limit: nat, tail: nat)
    requires use.Trim? && 0 < use.reread <= |s.chains| && limit <= tail && TailOf(s, use.checked, tail)
    ensures UseFits(s, use, limit)
  {
  }

  /** In a steady trim the limit lies within what the re-read chain's active segment has established. */
  lemma SteadyTrimEstablished(s: State, use: TrimUse, limit: nat)
    requires Inv(s) && UseFits(s, use, limit) && Steady(s, use, limit)
    ensures forall q :: Planned(s, use.reread, limit, q) ==> RequestEstablished(s, q)
  {
    hide Inv, RequestEstablished, TrimPlan;
    var snapshot := VersionedLogChain(use.reread, Some(s.chains[use.reread - 1]));
    assert Installed(s, snapshot);
    var tail :| limit <= tail && TailOf(s, use.checked, tail);
    SameActiveStart(s, use.checked, use.reread);
    TrimPassesExactly(s, snapshot, limit);
  }

  lemma SameActiveStart(s: State, u: nat, v: nat)
    requires Inv(s) && 0 < u <= |s.chains| && 0 < v <= |s.chains|
    requires s.chains[u - 1].segments != [] && s.chains[v - 1].segments != []
    ensures s.chains[u - 1].Active().segmentId == s.chains[v - 1].Active().segmentId ==>
      s.chains[u - 1].Active().virtualStart == s.chains[v - 1].Active().virtualStart
  {
    hide AcksFit, DroppedTrimmed, HistorySteps, ContractsHold, WindowsFit;
    ActiveFacts(s, u);
    ActiveFacts(s, v);
  }

  /** What the requests sent for a plan drawn at `s` mean at a later `t`. */
  lemma PlanMeaning(s: State, t: State, snapshot: VersionedLogChain, use: TrimUse, limit: nat, asked: set<TrimRequest>)
    requires Inv(s) && Inv(t) && Grows(s, t) && Installed(s, snapshot) && snapshot.chain.Some?
    requires use.Trim? && use.reread == snapshot.version && UseFits(s, use, limit)
    requires asked <= TrimPlan(snapshot, |snapshot.chain.value.segments|, limit)
    ensures UseFits(t, use, limit)
    ensures forall q :: q in asked ==>
      && RequestBelow(t, q, limit) && Planned(t, use.reread, limit, q)
      && (Steady(t, use, limit) ==> RequestEstablished(t, q))
  {
    hide Inv, RequestBelow, RequestEstablished, Steady;
    UseStays(s, t, use, limit);
    if Steady(t, use, limit) {
      SteadyTrimEstablished(t, use, limit);
    }
    forall q | q in asked
      ensures RequestBelow(t, q, limit)
    {
      var i :| 0 <= i < |snapshot.chain.value.segments| && snapshot.chain.value.segments[i].virtualStart < limit
        && q == RequestFor(snapshot.chain.value.segments[i], limit);
      PlanBelow(s, snapshot, limit, i);
      RequestStays(s, t, q, limit);
    }
  }

  lemma UseStays(s: State, t: State, use: TrimUse, limit: nat)
    requires Grows(s, t) && UseFits(s, use, limit)
    ensures UseFits(t, use, limit)
  {
    var tail :| limit <= tail && TailOf(s, use.checked, tail);
    GrowsGives(s, t, s.chains[use.checked - 1].Active().segmentId);
    assert TailOf(t, use.checked, tail);
  }

  lemma DropsBelow(s: State, t: State, current: VersionedLogChain, limit: nat,
      asked: set<TrimRequest>, asking: set<TrimRequest>, dropped: set<LogSegment>, dropping: set<LogSegment>)
    requires Inv(s) && Installed(s, current) && Grows(s, t) && current.chain.value.segments != []
    requires current.chain.value.First().virtualStop.Some? && current.chain.value.First().virtualStop.value <= limit
    requires forall q :: q in asked ==> RequestBelow(s, q, limit) && RequestEstablished(s, q)
    requires forall q :: q in asking ==> TrimsFirst(current, q) && RequestEstablished(t, q)
    requires forall d :: d in dropped ==> DroppedBelow(s, d, limit)
    requires forall d :: d in dropping ==> IsFirst(current, d) && FullyTrimmed(t, d)
    ensures forall q :: q in asked + asking ==> RequestBelow(t, q, limit) && RequestEstablished(t, q)
    ensures forall d :: d in dropped + dropping ==> DroppedBelow(t, d, limit)
  {
    hide Inv, Grows, RequestBelow;
    RequestsStay(s, t, asked, limit);
    forall q | q in asking
      ensures RequestBelow(t, q, limit)
    {
      FirstRequestBelow(s, current, limit, q);
      RequestStays(s, t, q, limit);
    }
    forall d | d in dropped
      ensures DroppedBelow(t, d, limit)
    {
      FullyTrimmedStays(s, t, d);
    }
  }

  lemma FirstRequestBelow(s: State, current: VersionedLogChain, limit: nat, q: TrimRequest)
    requires Inv(s) && Installed(s, current) && current.chain.value.segments != [] && TrimsFirst(current, q)
    requires current.chain.value.First().virtualStop.value <= limit
    ensures RequestBelow(s, q, limit)
  {
    hide Inv;
    var k := SegmentFacts(s, current, 0);
  }

  // ---- Reading ---------------------------------------------------------------------------------

  /** No entry of [from, to) that the segment had established at `s` is undiscarded and passed over. */
  ghost predicate SegmentPassed(s: State, t: State, segment: LogSegment, from: int, to: int) {
    forall q :: q in LogletOf(s, segment.segmentId).issued && q < LogletOf(s, segment.segmentId).established
      && from <= segment.virtualStart + q < to
      && (segment.virtualStop.Some? ==> segment.virtualStart + q < segment.virtualStop.value)
      ==> q < LogletOf(t, segment.segmentId).discarded
  }

  ghost predicate PassedOnly(s: State, t: State, snapshot: VersionedLogChain, n: nat, from: int, to: int) {
    && snapshot.chain.Some? && n <= |snapshot.chain.value.segments|
    && forall j :: 0 <= j < n ==> SegmentPassed(s, t, snapshot.chain.value.segments[j], from, to)
  }

  lemma NothingRead(s: State, snapshot: VersionedLogChain, from: int, to: int)
    requires snapshot.chain.Some?
    ensures PassedOnly(s, s, snapshot, 0, from, to)
  {
  }

  lemma PassedStays(s: State, t: State, u: State, snapshot: VersionedLogChain, n: nat, from: int, to: int)
    requires Grows(t, u) && PassedOnly(s, t, snapshot, n, from, to)
    ensures PassedOnly(s, u, snapshot, n, from, to)
  {
    hide Grows;
    forall j | 0 <= j < n
      ensures SegmentPassed(s, u, snapshot.chain.value.segments[j], from, to)
    {
      assert SegmentPassed(s, t, snapshot.chain.value.segments[j], from, to);
      GrowsGives(t, u, snapshot.chain.value.segments[j].segmentId);
    }
  }

  /** A local read that began at `s` and ended at `t` accounts for its part of the range. */
  lemma ReadSegment(s0: State, s: State, t: State, u: State, segment: LogSegment, from: int, stop: int)
    requires Grows(s0, s) && Grows(t, u)
    requires NoneSkipped(LogletOf(s, segment.segmentId), LogletOf(t, segment.segmentId),
                         (if from < segment.virtualStart then segment.virtualStart else from) - segment.virtualStart,
                         stop - segment.virtualStart)
    ensures SegmentPassed(s0, u, segment, from, stop)
  {
    hide Grows;
    GrowsGives(s0, s, segment.segmentId);
    GrowsGives(t, u, segment.segmentId);
  }

  lemma ReadThrough(s0: State, s: State, t: State, u: State, snapshot: VersionedLogChain, i: nat, from: int, to: int,
      stop: int)
    requires Grows(s0, s) && Grows(s, t) && Grows(t, u) && PassedOnly(s0, s, snapshot, i, from, to)
    requires i < |snapshot.chain.value.segments|
    requires var x := snapshot.chain.value.segments[i];
      && NoneSkipped(LogletOf(s, x.segmentId), LogletOf(t, x.segmentId),
                     (if from < x.virtualStart then x.virtualStart else from) - x.virtualStart, stop - x.virtualStart)
      && (stop == to || x.virtualStop == Some(stop))
    ensures PassedOnly(s0, u, snapshot, i + 1, from, to)
  {
    hide Grows, NoneSkipped;
    GrowsTransitive(s, t, u);
    PassedStays(s0, s, u, snapshot, i, from, to);
    ReadSegment(s0, s, t, u, snapshot.chain.value.segments[i], from, stop);
  }

  lemma EmptyOverlap(s0: State, s: State, snapshot: VersionedLogChain, i: nat, from: int, to: int)
    requires PassedOnly(s0, s, snapshot, i, from, to) && i < |snapshot.chain.value.segments|
    requires var x := snapshot.chain.value.segments[i];
      var start := if from < x.virtualStart then x.virtualStart else from;
      to <= start || (x.virtualStop.Some? && x.virtualStop.value <= start)
    ensures PassedOnly(s0, s, snapshot, i + 1, from, to)
  {
  }

  /** Up to the entry found in segment `i` nothing was passed over: later segments start above it. */
  lemma ReadUpTo(s0: State, s: State, t: State, u: State, reserved: seq<string>, snapshot: VersionedLogChain, i: nat,
      from: int, to: int, position: int)
    requires Inv(s0) && Installed(s0, snapshot) && snapshot.chain.value.Valid()
    requires Interference(s0, u, reserved)
    requires Grows(s0, s) && Grows(s, t) && Grows(t, u) && PassedOnly(s0, s, snapshot, i, from, to)
    requires i < |snapshot.chain.value.segments| && position <= to
    requires var x := snapshot.chain.value.segments[i];
      && NoneSkipped(LogletOf(s, x.segmentId), LogletOf(t, x.segmentId),
                     (if from < x.virtualStart then x.virtualStart else from) - x.virtualStart,
                     position - x.virtualStart)
      && (x.virtualStop.Some? ==> position < x.virtualStop.value)
    ensures NothingPassed(s0, u, snapshot.version, from, position)
  {
    hide Grows, NoneSkipped, Inv, Interference;
    var chain := snapshot.chain.value;
    GrowsTransitive(s, t, u);
    PassedStays(s0, s, u, snapshot, i, from, to);
    ReadSegment(s0, s, t, u, chain.segments[i], from, position);
    forall j | 0 <= j < |chain.segments|
      ensures SegmentPassed(s0, u, chain.segments[j], from, position)
    {
      if j < i {
        assert SegmentPassed(s0, u, chain.segments[j], from, to);
      } else if i < j {
        chain.RangesAscend(i, j);
      }
    }
    PassedMeans(s0, u, reserved, snapshot, from, position);
  }

  lemma PassedMeans(s: State, t: State, reserved: seq<string>, snapshot: VersionedLogChain, from: int, to: int)
    requires Inv(s) && Installed(s, snapshot) && Interference(s, t, reserved)
    requires PassedOnly(s, t, snapshot, |snapshot.chain.value.segments|, from, to)
    ensures NothingPassed(s, t, snapshot.version, from, to)
  {
    hide Inv, Grows;
    SnapshotFacts(s, snapshot);
    var w := WindowFacts(s, snapshot.version - 1, snapshot.version - 1);
    forall k: nat, q: nat | EntryAtPlace(s, w.high, k, q) && from <= s.placed[k].start + q < to
      ensures q < LogletOf(t, s.placed[k].segmentId).discarded
    {
      GrowsGives(s, t, s.placed[k].segmentId);
      PlacePassed(s, t, snapshot, from, to, k, q);
    }
  }

  lemma PlacePassed(s: State, t: State, snapshot: VersionedLogChain, from: int, to: int, k: nat, q: nat)
    requires Inv(s) && Installed(s, snapshot) && |s.windows| == |s.chains|
    requires EntryAtPlace(s, s.windows[snapshot.version - 1].high, k, q) && from <= s.placed[k].start + q < to
    requires PassedOnly(s, t, snapshot, |snapshot.chain.value.segments|, from, to)
    requires Evolves(LogletOf(s, s.placed[k].segmentId), LogletOf(t, s.placed[k].segmentId))
    ensures q < LogletOf(t, s.placed[k].segmentId).discarded
  {
    hide Inv;
    var v := snapshot.version - 1;
    var w := WindowFacts(s, v, v);
    if k < w.low {
      EndOf(s, v, k);
      LogletContract(s, s.placed[k].segmentId);
    } else {
      Index(s, v, k);
      assert SegmentPassed(s, t, snapshot.chain.value.segments[k - w.low], from, to);
    }
  }

  /** In particular an acknowledged position is passed over only when discarded. */
  lemma AcknowledgedNotPassed(s: State, t: State, v: nat, from: int, to: int, a: Ack)
    requires Inv(s) && NothingPassed(s, t, v, from, to) && a in s.acks && from <= a.position < to
    ensures 0 < a.version <= |s.windows|
    ensures KnownTo(s, v, a) ==> a.local < LogletOf(t, a.segmentId).discarded
  {
    hide Inv;
    AckFacts(s, a);
    SameLengths(s);
    var w := WindowFacts(s, v - 1, v - 1);
    var k := PlaceOfAck(s, a);
    if KnownTo(s, v, a) && k + 1 < w.high {
      AckBefore(s, a, k + 1);
    }
    assert KnownTo(s, v, a) ==> EntryAtPlace(s, w.high, k, a.local);
  }

  // ---- A scan that nobody disturbs -------------------------------------------------------------------

  /** The local range of segment `i` that [from, to) covers. */
  function LocalStart(segment: LogSegment, from: int): int {
    if from < segment.virtualStart then 0 else from - segment.virtualStart
  }

  function LocalStop(segment: LogSegment, to: int): int {
    (if segment.virtualStop.Some? && segment.virtualStop.value < to then segment.virtualStop.value else to)
    - segment.virtualStart
  }

  /** The first segments of the chain have nothing in the range that is not discarded. */
  ghost predicate NothingUpTo(s: State, snapshot: VersionedLogChain, n: nat, from: int, to: int) {
    && snapshot.chain.Some? && n <= |snapshot.chain.value.segments|
    && forall i :: 0 <= i < n ==> SegmentEmpty(s, snapshot.chain.value.segments[i], from, to)
  }

  ghost predicate SegmentEmpty(s: State, segment: LogSegment, from: int, to: int) {
    NothingIn(LogletOf(s, segment.segmentId), LocalStart(segment, from), LocalStop(segment, to))
  }

  /** The entry is the first one of segment `i` in the range, and the segments before have nothing there. */
  ghost predicate FirstFound(s: State, snapshot: VersionedLogChain, i: nat, from: int, to: int, e: VirtualLogEntry) {
    && NothingUpTo(s, snapshot, i, from, to) && i < |snapshot.chain.value.segments|
    && var segment := snapshot.chain.value.segments[i];
       && FirstEntry(LogletOf(s, segment.segmentId), LocalStart(segment, from), LocalStop(segment, to), e.localPosition)
       && e == VirtualLogEntry(segment.virtualStart + e.localPosition,
                               LogletOf(s, segment.segmentId).issued[e.localPosition], segment.segmentId,
                               e.localPosition)
  }

  ghost predicate Finds(s: State, snapshot: VersionedLogChain, from: int, to: int, e: VirtualLogEntry) {
    exists i: nat :: FirstFound(s, snapshot, i, from, to, e)
  }

  lemma NothingYet(s: State, snapshot: VersionedLogChain, from: int, to: int)
    requires snapshot.chain.Some?
    ensures NothingUpTo(s, snapshot, 0, from, to)
  {
  }

  lemma NothingHere(s: State, snapshot: VersionedLogChain, i: nat, from: int, to: int)
    requires snapshot.chain.Some? && i < |snapshot.chain.value.segments|
    ensures var segment := snapshot.chain.value.segments[i];
      NothingUpTo(s, snapshot, i, from, to)
      && (LocalStop(segment, to) <= LocalStart(segment, from)
          || NothingIn(LogletOf(s, segment.segmentId), LocalStart(segment, from), LocalStop(segment, to))) ==>
        NothingUpTo(s, snapshot, i + 1, from, to)
  {
  }

  lemma FirstInRange(l: Loglet, from: int, to: int, q: nat)
    ensures FirstEntry(l, from, to, q) ==> from <= q < to
  {
  }

  lemma FoundFirst(s: State, snapshot: VersionedLogChain, i: nat, from: int, to: int, e: VirtualLogEntry)
    requires NothingUpTo(s, snapshot, i, from, to) && i < |snapshot.chain.value.segments|
    requires var segment := snapshot.chain.value.segments[i];
      && FirstEntry(LogletOf(s, segment.segmentId), LocalStart(segment, from), LocalStop(segment, to), e.localPosition)
      && e.position == segment.virtualStart + e.localPosition && e.segmentId == segment.segmentId
      && e.localPosition in LogletOf(s, segment.segmentId).issued
      && LogletOf(s, segment.segmentId).issued[e.localPosition] == e.command
    ensures Finds(s, snapshot, from, to, e)
  {
    hide NothingUpTo, FirstEntry;
    assert FirstFound(s, snapshot, i, from, to, e);
  }

  lemma EntryHolds(s: State, chain: LogChain, i: nat, e: VirtualLogEntry)
    requires i < |chain.segments| && EntryIn(chain.segments[i], e)
    requires e.localPosition in LogletOf(s, e.segmentId).issued
    requires LogletOf(s, e.segmentId).issued[e.localPosition] == e.command
    ensures EntryFits(s, chain, e)
  {
  }
}
