/** The service over one replica: commands go through the VirtualLog and come back from the store (kv/service.py). */
module KvService {
  import opened Wrappers
  import opened LogChains
  import opened Register
  import opened KvMachine
  import opened KvReplay
  import opened KvSnapshots
  import opened KvStore
  import opened KvLog
  import opened KvMaterializer
  import opened VirtualLogFlat
  import VirtualLogProtocol
  import VirtualLogTheorems
  import VirtualLogNetwork
  import VirtualLogClient

  type State = VirtualLogProtocol.State

  datatype SubmitReply =
    | Answered(result: KvResult)
    | Conflict
    | Unavailable(error: VirtualLogClient.Failure)
    | NotMaterialized(outcome: Outcome)

  datatype SyncReply =
    | Synced(target: int)
    | NoTail(error: VirtualLogClient.Failure)
    | SealedActive
    | NotSynced(outcome: Outcome)

  /** No read went through a version older than the one the append was acknowledged at. */
  ghost predicate NeverOlder(versions: set<nat>, a: VirtualLogProtocol.Ack) {
    forall v :: v in versions ==> a.version <= v
  }

  /** Such reads know every segment up to the acknowledged position. */
  lemma NeverOlderSees(s: State, versions: set<nat>, a: VirtualLogProtocol.Ack, f: Flat, end: int)
    requires VirtualLogProtocol.Inv(s) && a in s.acks && f.settled == a.position + 1 <= end
    requires NeverOlder(versions, a) && forall v :: v in versions ==> 0 < v <= |s.windows|
    ensures SeesThrough(s, versions, f, end)
  {
    hide VirtualLogProtocol.Inv;
    VirtualLogTheorems.AckFacts(s, a);
    forall v | v in versions
      ensures SeesSettled(s, v, f, end)
    {
      var w := VirtualLogTheorems.WindowFacts(s, a.version - 1, v - 1);
      if w.high < |s.placed| {
        VirtualLogTheorems.AckBefore(s, a, w.high);
      }
    }
  }

  lemma AckSettles(s: State, a: VirtualLogProtocol.Ack, decoder: Decoder) returns (f: Flat)
    requires VirtualLogProtocol.Inv(s) && a in s.acks
    ensures Represents(s, decoder, f) && f.settled == a.position + 1
    ensures a.position in f.entries && f.entries[a.position] == Decode(decoder, a.command)
  {
    hide VirtualLogProtocol.Inv;
    f := ViewExists(s, decoder, a.position + 1);
    AckIsFlat(s, a);
  }

  lemma AckIsFlat(s: State, a: VirtualLogProtocol.Ack)
    requires VirtualLogProtocol.Inv(s) && a in s.acks
    ensures FlatAt(s, a.position, a.command)
  {
    hide VirtualLogProtocol.Inv;
    VirtualLogTheorems.AckFacts(s, a);
    var k := VirtualLogTheorems.PlaceOfAck(s, a);
    if k + 1 < |s.placed| {
      VirtualLogTheorems.AckBefore(s, a, k + 1);
    }
    assert Gives(s, k, a.local, a.position);
  }

  /** With the same boundary a grown view holds the same entries. */
  lemma SameEntries(f: Flat, g: Flat)
    requires FlatGrows(f, g) && f.settled == g.settled && f.Valid() && g.Valid()
    ensures f.entries == g.entries
  {
    assert f.entries.Keys == g.entries.Keys;
  }

  /** A client without a chain takes the installed one, or installs the policy's initial segment. */
  ghost predicate BootstrapsAs(s: State, initial: Option<LogSegment>, failure: Option<VirtualLogClient.Failure>,
      cached: Option<VersionedLogChain>)
  {
    if s.chains != [] then failure.None? && cached == Some(VirtualLogProtocol.RegisterOf(s))
    else if initial.None? then failure == Some(VirtualLogClient.LogletUnavailable)
    else if initial.value.virtualStart == 0 && initial.value.virtualStop.None? then
      failure.None? && cached == Some(VirtualLogClient.FirstVersion(initial.value))
    else failure == Some(VirtualLogClient.InvalidArgument)
  }

  class KvService {
    const materializer: KvMaterializer
    const virtualLog: VirtualLogClient.VirtualLog
    const store: SQLiteKvStore
    /** The bootstrap policy's initial segment. */
    const initial: Option<LogSegment>

    constructor (materializer: KvMaterializer, initial: Option<LogSegment>)
      requires materializer.Valid() && (initial.Some? ==> initial.value.Valid())
      ensures Valid() && this.materializer == materializer && this.initial == initial
    {
      this.materializer, this.initial := materializer, initial;
      virtualLog, store := materializer.virtualLog, materializer.store;
    }

    ghost predicate Valid()
      reads this, materializer, store, virtualLog, virtualLog.world
    {
      && materializer.virtualLog == virtualLog && materializer.store == store
      && store.Valid() && virtualLog.Valid() && (initial.Some? ==> initial.value.Valid())
    }

    method EnsureBootstrapped() returns (failure: Option<VirtualLogClient.Failure>)
      requires Valid()
      modifies virtualLog.world, virtualLog`cached
      ensures Valid() && VirtualLogProtocol.Grows(old(virtualLog.world.state), virtualLog.world.state)
      ensures failure.None? ==> virtualLog.cached.Some?
      ensures old(virtualLog.cached).Some? ==>
        && failure.None? && virtualLog.cached == old(virtualLog.cached)
        && virtualLog.world.state == old(virtualLog.world.state)
      ensures virtualLog.world.undisturbed && old(virtualLog.cached).None? ==>
        BootstrapsAs(old(virtualLog.world.state), initial, failure, virtualLog.cached)
    {
      hide VirtualLogProtocol.Inv, VirtualLogProtocol.Grows, VirtualLogNetwork.Interference, Coherent;
      ghost var s := virtualLog.world.state;
      VirtualLogProtocol.GrowsReflexive(s);
      if virtualLog.cached.Some? {
        return None;
      }
      var refreshed := virtualLog.Refresh();
      ghost var t := virtualLog.world.state;
      VirtualLogNetwork.InterferenceGives(s, t, virtualLog.world.reserved);
      if refreshed.Ok? || refreshed.error != VirtualLogClient.ChainUnavailable {
        return if refreshed.Ok? then None else Some(refreshed.error);
      }
      if initial.None? {
        return Some(VirtualLogClient.LogletUnavailable);
      }
      var installed := virtualLog.Bootstrap(initial.value);
      VirtualLogProtocol.GrowsTransitive(s, t, virtualLog.world.state);
      failure := if installed.Ok? then None else Some(installed.error);
    }

    /**
     Appends the command, unless its request is already answered, and materializes through its position.
     An answer stands in the store's row at a position where the command was acknowledged. If the store
     held the fold of the log and no read went through a version older than the append's, the store holds
     the fold of the log through that position exactly when it was shown every command up to it, as it
     was unless some had been discarded, and the answer is that of the request's first occurrence.
     */
    method Submit(command: Envelope, entry: VirtualLogProtocol.LogCommand)
      returns (r: SubmitReply, ghost ack: VirtualLogProtocol.Ack, ghost items: seq<Item>, ghost versions: set<nat>,
               ghost g: Flat)
      requires Valid() && Decode(materializer.decoder, entry) == Some(command)
      modifies store, virtualLog.world, virtualLog`cached
      ensures Valid() && VirtualLogProtocol.Grows(old(virtualLog.world.state), virtualLog.world.state)
      ensures IdOf(command) in old(store.requests) ==>
        && store.Contents() == old(store.Contents()) && virtualLog.world.state == old(virtualLog.world.state)
        && r == if old(store.requests)[IdOf(command)].command == command
                then Answered(old(store.requests)[IdOf(command)].result) else Conflict
      ensures IdOf(command) !in old(store.requests) ==> r != Conflict
      ensures IdOf(command) !in old(store.requests) && r.Answered? ==>
        && ack in virtualLog.world.state.acks && ack.command == entry
        && ack.position in store.applied && r.result == store.applied[ack.position].result
        && Represents(virtualLog.world.state, materializer.decoder, g) && g.settled == ack.position + 1
        && ack.position in g.entries && g.entries[ack.position] == Some(command)
        && CaughtUp(old(store.Contents()), store.Contents(), g, ack, items, versions)
      ensures virtualLog.Undisturbed() && old(virtualLog.cached).Some? && IdOf(command) !in old(store.requests) ==>
        VirtualLogNetwork.Tidy(old(virtualLog.world.state), virtualLog.world.script) ==>
          && VirtualLogClient.AppendedAsScripted(
               old(virtualLog.world.state), old(virtualLog.cached).value, virtualLog.world.script,
               virtualLog.maxAttempts,
               if r.Unavailable? then VirtualLogClient.Err(r.error) else VirtualLogClient.Ok(ack.position))
          && (r.NotMaterialized? ==> !r.outcome.ReadFailed?)
    {
      hide VirtualLogProtocol.Inv, VirtualLogProtocol.Grows, VirtualLogNetwork.Interference, Coherent, Represents,
        CaughtUp, SeesThrough, Account, Explains, KvReplay.Materialized, ItemsWithin, AllListed, FlatGrows,
        VirtualLogClient.AppendedAsScripted, VirtualLogNetwork.Tidy, NothingListed;
      ghost var world, was := virtualLog.world, store.Contents();
      ghost var s0 := world.state;
      VirtualLogProtocol.GrowsReflexive(s0);
      ack, items, versions, g := *, [], {}, Flat(map[], 0, {});
      CoherentStart(was);
      var completed := store.Request(IdOf(command));
      if completed.Some? {
        r := if completed.value.command == command then Answered(completed.value.result) else Conflict;
        return;
      }
      var failure := EnsureBootstrapped();
      ghost var s1 := world.state;
      if failure.Some? {
        return Unavailable(failure.value), ack, items, versions, g;
      }
      var appended, trail := virtualLog.Append(entry);
      ghost var s2 := world.state;
      VirtualLogProtocol.GrowsTransitive(s0, s1, s2);
      if appended.Err? {
        return Unavailable(appended.error), ack, items, versions, g;
      }
      ack :| ack in s2.acks && ack.position == appended.value && ack.command == entry;
      ghost var f := AckSettles(s2, ack, materializer.decoder);
      var outcome;
      outcome, items, versions, g := materializer.MaterializeThrough(appended.value, f);
      VirtualLogNetwork.InterferenceGives(s2, world.state, world.reserved);
      VirtualLogProtocol.GrowsTransitive(s0, s2, world.state);
      if !outcome.Materialized? {
        return NotMaterialized(outcome), ack, items, versions, g;
      }
      ViewsAgree(s2, world.state, materializer.decoder, f, g);
      CatchesUp(world.state, was, store.Contents(), f, g, ack, items, versions);
      r := Answered(outcome.result);
    }

    /**
     Brings the store up to the VirtualLog's tail. `a` is any append acknowledged before: once synced, the
     store has passed its position, and holds its command's row if no read went through a version older
     than the append's, unless it held that position already or the entry had been discarded.
     */
    method Sync(ghost a: VirtualLogProtocol.Ack) returns (r: SyncReply, ghost versions: set<nat>, ghost g: Flat)
      requires Valid() && a in virtualLog.world.state.acks
      modifies store, virtualLog.world, virtualLog`cached
      ensures Valid() && VirtualLogProtocol.Grows(old(virtualLog.world.state), virtualLog.world.state)
      ensures old(store.progress) <= store.progress
      ensures r.Synced? ==>
        && a.position <= r.target <= store.progress
        && Represents(virtualLog.world.state, materializer.decoder, g) && g.settled == a.position + 1
        && Reflects(old(store.Contents()), store.Contents(), materializer.decoder, g, a, versions)
      ensures virtualLog.Undisturbed() && old(virtualLog.cached).Some? ==>
        VirtualLogNetwork.Tidy(old(virtualLog.world.state), virtualLog.world.script) ==>
          && (r.NoTail? || r.Synced? ==>
                VirtualLogClient.TailAsScripted(
                  old(virtualLog.world.state), old(virtualLog.cached).value, virtualLog.world.script,
                  virtualLog.maxAttempts,
                  if r.NoTail? then VirtualLogClient.Err(r.error)
                  else VirtualLogClient.Ok(VirtualLogNetwork.LogletTail(r.target + 1, false))))
          && (r.NotSynced? ==> !r.outcome.ReadFailed?)
    {
      hide VirtualLogProtocol.Inv, VirtualLogProtocol.Grows, VirtualLogNetwork.Interference, Coherent, Represents,
        Reflects, SeesThrough, Account, Explains, KvReplay.Materialized, ItemsWithin, AllListed, FlatGrows,
        VirtualLogClient.TailOf, VirtualLogClient.TailAsScripted, VirtualLogNetwork.Tidy, NothingListed,
        VirtualLogClient.Moving;
      ghost var world, was := virtualLog.world, store.Contents();
      ghost var s0 := world.state;
      VirtualLogProtocol.GrowsReflexive(s0);
      versions, g := {}, Flat(map[], 0, {});
      var failure := EnsureBootstrapped();
      ghost var s1 := world.state;
      if failure.Some? {
        return NoTail(failure.value), versions, g;
      }
      Kept(s0, s1);
      var checked, through, trail := virtualLog.CheckTail();
      ghost var s2 := world.state;
      VirtualLogProtocol.GrowsTransitive(s0, s1, s2);
      Kept(s0, s2);
      if checked.Err? {
        return NoTail(checked.error), versions, g;
      }
      if checked.value.isSealed {
        return SealedActive, versions, g;
      }
      var target := checked.value.tail - 1;
      ghost var f := AckSettles(s2, a, materializer.decoder);
      ghost var items: seq<Item> := [];
      g := f;
      ItemsNone(f, was, target);
      var progress := store.progress;
      if progress < target {
        var outcome;
        outcome, items, versions, g := materializer.MaterializeThrough(target, f);
        VirtualLogNetwork.InterferenceGives(s2, world.state, world.reserved);
        VirtualLogProtocol.GrowsTransitive(s0, s2, world.state);
        Kept(s0, world.state);
        if !outcome.Materialized? {
          return NotSynced(outcome), versions, g;
        }
      }
      SyncReflects(world.state, was, store.Contents(), materializer.decoder, f, g, a, items, versions, target);
      r := Synced(target);
    }
  }

  lemma ItemsNone(f: Flat, t: Tables, target: int)
    requires Coherent(t)
    ensures -1 <= t.progress && ItemsWithin([], t.progress, t.progress) && Replay(t, []) == Some(t)
    ensures Account(f, f, [], t.progress, t.progress, target)
  {
    hide Coherent;
    CoherentStart(t);
    NothingApplied(f, t.progress, target);
  }

  lemma ViewsAgree(s: State, t: State, decoder: Decoder, f: Flat, g: Flat)
    requires Represents(s, decoder, f) && Represents(t, decoder, g) && f.settled == g.settled && FlatGrows(f, g)
    ensures f.entries == g.entries
  {
    hide SettledTo, DiscardedAt, FlatAt;
    SameEntries(f, g);
  }

  /** What materializing from `t` to `u` through an acknowledged position achieved. */
  ghost predicate CaughtUp(t: Tables, u: Tables, g: Flat, ack: VirtualLogProtocol.Ack, items: seq<Item>,
      versions: set<nat>)
  {
    && (t.progress < ack.position ==> u.progress == ack.position) && (ack.position <= t.progress ==> u == t)
    && (NeverOlder(versions, ack) && t.progress < ack.position
        && KvReplay.Materialized(t, Between(g.entries, -1, t.progress)) ==>
          && ((forall p :: p in g.discarded ==> !(t.progress < p <= ack.position)) ==>
                AllListed(g.entries, items, t.progress, ack.position))
          && (AllListed(g.entries, items, t.progress, ack.position) <==>
                KvReplay.Materialized(u, Between(g.entries, -1, ack.position))))
    && (KvReplay.Materialized(u, Between(g.entries, -1, ack.position))
        && ack.position in g.entries && g.entries[ack.position].Some? ==>
          AnswersAsFirst(g.entries, u, ack.position))
  }

  lemma CatchesUp(s: State, t: Tables, u: Tables, f: Flat, g: Flat, ack: VirtualLogProtocol.Ack, items: seq<Item>,
      versions: set<nat>)
    requires VirtualLogProtocol.Inv(s) && ack in s.acks && f.settled == ack.position + 1 && f.entries == g.entries
    requires forall v :: v in versions ==> 0 < v <= |s.windows|
    requires -1 <= t.progress && ItemsWithin(items, t.progress, u.progress) && Replay(t, items) == Some(u)
    requires t.progress < ack.position ==> u.progress == ack.position
    requires ack.position <= t.progress ==> u == t
    requires SeesThrough(s, versions, f, ack.position + 1) ==>
      Account(f, g, items, t.progress, u.progress, ack.position)
    ensures CaughtUp(t, u, g, ack, items, versions)
  {
    hide VirtualLogProtocol.Inv, Account, SeesThrough, KvReplay.Materialized, ItemsWithin, AllListed, Replay,
      AnswersAsFirst, NeverOlder;
    if NeverOlder(versions, ack) && t.progress < ack.position
       && KvReplay.Materialized(t, Between(g.entries, -1, t.progress)) {
      NeverOlderSees(s, versions, ack, f, ack.position + 1);
      AccountFolds(f, g, t, items, u, t.progress, ack.position);
    }
    if KvReplay.Materialized(u, Between(g.entries, -1, ack.position))
       && ack.position in g.entries && g.entries[ack.position].Some? {
      FoldAnswers(g.entries, u, ack.position);
    }
  }

  /** After a sync the store has passed `a`, and holds its row unless it had been discarded. */
  ghost predicate Reflects(t: Tables, u: Tables, decoder: Decoder, g: Flat, a: VirtualLogProtocol.Ack,
      versions: set<nat>)
  {
    && a.position <= u.progress
    && (t.progress < a.position && NeverOlder(versions, a) && a.position !in g.discarded ==>
          && Decode(decoder, a.command).Some? && a.position in u.applied
          && u.applied[a.position].command == Decode(decoder, a.command).value)
  }

  lemma SyncReflects(s: State, t: Tables, u: Tables, decoder: Decoder, f: Flat, g: Flat, a: VirtualLogProtocol.Ack,
      items: seq<Item>, versions: set<nat>, target: int)
    requires VirtualLogProtocol.Inv(s) && a in s.acks && f.settled == a.position + 1 && a.position <= target
    requires a.position in f.entries && f.entries[a.position] == Decode(decoder, a.command)
    requires forall v :: v in versions ==> 0 < v <= |s.windows|
    requires -1 <= t.progress && ItemsWithin(items, t.progress, u.progress) && Replay(t, items) == Some(u)
    requires t.progress < target ==> u.progress == target
    requires target <= t.progress ==> u == t
    requires SeesThrough(s, versions, f, target + 1) ==> Account(f, g, items, t.progress, u.progress, target)
    ensures Reflects(t, u, decoder, g, a, versions)
  {
    hide VirtualLogProtocol.Inv, SeesThrough, ItemsWithin, Replay, NeverOlder, Undiscarded, Readable;
    if t.progress < a.position && NeverOlder(versions, a) && a.position !in g.discarded {
      NeverOlderSees(s, versions, a, f, target + 1);
      var item :| item in items && item.position == a.position;
      ItemsLeaveRows(t, items, u, t.progress, u.progress, item);
    }
  }
}
