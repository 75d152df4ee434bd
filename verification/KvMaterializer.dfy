/** Bringing the store up to a log position by reading the VirtualLog (kv/materializer.py). */
module KvMaterializer {
  import opened Wrappers
  import opened KvMachine
  import opened KvReplay
  import opened KvSnapshots
  import opened KvStore
  import opened KvLog
  import opened VirtualLogFlat
  import opened Register
  import VirtualLogProtocol
  import VirtualLogTheorems
  import VirtualLogNetwork
  import VirtualLogClient

  datatype ReadReply =
    | EntryRead(position: nat, payload: Option<Envelope>)
    | NoEntry
    | ReadLost(error: VirtualLogClient.Failure)

  datatype SyncCause = NoEntryFound | NoStoredResult | NotApplied

  /** A failed read surfaces as it is, or as SyncRequired when a connection was lost. */
  datatype Outcome =
    | Materialized(result: KvResult)
    | SyncRequired(cause: SyncCause)
    | ReadFailed(error: VirtualLogClient.Failure)
    | InvalidKvPayload(position: nat)
    | Refused(position: nat)

  /** Every version read through knows each segment of the settled part of the range. */
  ghost predicate SeesThrough(s: VirtualLogProtocol.State, versions: set<nat>, f: Flat, end: int) {
    forall v :: v in versions ==> SeesSettled(s, v, f, end)
  }

  /** No segment the chain lists has an entry in [from, end) that is not discarded. */
  ghost predicate NothingListed(s: VirtualLogProtocol.State, snapshot: VersionedLogChain, from: int, end: int) {
    && snapshot.chain.Some?
    && VirtualLogClient.NothingUpTo(s, snapshot, |snapshot.chain.value.segments|, from, end)
  }

  class KvMaterializer {
    const virtualLog: VirtualLogClient.VirtualLog
    const store: SQLiteKvStore
    const decoder: Decoder

    constructor (virtualLog: VirtualLogClient.VirtualLog, store: SQLiteKvStore, decoder: Decoder)
      ensures this.virtualLog == virtualLog && this.store == store && this.decoder == decoder
    {
      this.virtualLog, this.store, this.decoder := virtualLog, store, decoder;
    }

    ghost predicate Valid()
      reads this, store, virtualLog, virtualLog.world
    {
      store.Valid() && virtualLog.Valid()
    }

    lemma LogFits()
      requires Valid()
      ensures VirtualLogProtocol.Inv(virtualLog.world.state)
    {
    }

    /** Applies the entry read next, and keeps the account of what was replayed. */
    method ApplyNext(position: nat, command: Envelope, ghost was: Tables, ghost items: seq<Item>, ghost from: int)
      returns (applying: Applying)
      requires store.Valid() && from <= store.progress < position
      requires Replay(was, items) == Some(store.Contents()) && ItemsWithin(items, from, store.progress)
      modifies store
      ensures store.Valid()
      ensures applying.RequestConflict? ==>
        store.Contents() == old(store.Contents())
        && KvReplay.Apply(store.Contents(), position, command).1 == RequestConflict
      ensures applying.Done? ==>
        && store.progress == position && position in store.applied
        && store.applied[position].result == applying.result
        && Replay(was, items + [Item(position, command)]) == Some(store.Contents())
        && ItemsWithin(items + [Item(position, command)], from, position)
    {
      hide KvReplay.Apply, Coherent, Replay, ItemsWithin;
      ghost var held := store.Contents();
      applying := store.Apply(position, command);
      NewPosition(held, position, command);
      ReplayLonger(was, items, held, Item(position, command));
      ItemsOn(items, from, held.progress, Item(position, command));
    }

    /** The VirtualLog's next entry of [from, end), decoded; `version` is the one the read went through. */
    method ReadRange(from: nat, end: nat, ghost f: Flat) returns (reply: ReadReply, ghost version: nat, ghost g: Flat)
      requires Valid() && from < end && Represents(virtualLog.world.state, decoder, f)
      modifies virtualLog.world`state, virtualLog`cached
      ensures Valid()
      ensures VirtualLogNetwork.Interference(old(virtualLog.world.state), virtualLog.world.state,
                                             virtualLog.world.reserved)
      ensures Represents(virtualLog.world.state, decoder, g) && g.settled == f.settled && FlatGrows(f, g)
      ensures reply.EntryRead? ==> from <= reply.position < end
      ensures !reply.ReadLost? ==> 0 < version <= |old(virtualLog.world.state).windows|
      ensures SeesSettled(virtualLog.world.state, version, f, end) ==>
        && (reply.EntryRead? ==> Stopped(f, g, from - 1, reply.position, end - 1, reply.payload))
        && (reply.NoEntry? ==> Passed(f, g, from, end))
      ensures virtualLog.Undisturbed() && old(virtualLog.cached).Some? ==>
        && !reply.ReadLost? && virtualLog.world.state == old(virtualLog.world.state)
        && virtualLog.cached == old(virtualLog.cached)
        && (reply.NoEntry? ==> NothingListed(virtualLog.world.state, virtualLog.cached.value, from, end))
    {
      hide VirtualLogProtocol.Inv, VirtualLogProtocol.Grows, VirtualLogNetwork.Interference, Represents, SeesSettled,
        VirtualLogClient.EntryFits, VirtualLogClient.NothingPassed, Coherent, VirtualLogClient.NothingUpTo,
        VirtualLogClient.Finds;
      ghost var s := virtualLog.world.state;
      version := if virtualLog.cached.Some? then virtualLog.cached.value.version else 0;
      ghost var before := virtualLog.cached;
      if before.Some? {
        VirtualLogClient.SnapshotFacts(s, before.value);
      }
      var found := virtualLog.ReadNext(from, end);
      ghost var t := virtualLog.world.state;
      VirtualLogNetwork.InterferenceGives(s, t, virtualLog.world.reserved);
      g := LaterView(s, t, decoder, f);
      if found.Err? {
        return ReadLost(found.error), version, g;
      }
      if SeesSettled(t, version, f, end) {
        ReadMeetsLog(s, t, decoder, f, g, version, from, end, found.value);
      }
      if found.value.None? {
        return NoEntry, version, g;
      }
      reply := EntryRead(found.value.value.position, Decode(decoder, found.value.value.command));
    }

    /** The entry after the store's progress, and what its read adds to the account since `f`. */
    method ReadAhead(next: nat, target: int, ghost f: Flat, ghost g: Flat, ghost s0: VirtualLogProtocol.State,
        ghost items: seq<Item>, ghost current: int, ghost versions: set<nat>)
      returns (reply: ReadReply, ghost version: nat, ghost h: Flat)
      requires Valid() && next <= target && store.progress == next - 1
      requires Represents(virtualLog.world.state, decoder, g) && g.settled == f.settled && FlatGrows(f, g)
      requires VirtualLogNetwork.Interference(s0, virtualLog.world.state, virtualLog.world.reserved)
      requires forall v :: v in versions ==> 0 < v <= |virtualLog.world.state.windows|
      modifies virtualLog.world`state, virtualLog`cached
      ensures Valid()
      ensures VirtualLogNetwork.Interference(s0, virtualLog.world.state, virtualLog.world.reserved)
      ensures Represents(virtualLog.world.state, decoder, h) && h.settled == f.settled && FlatGrows(f, h)
      ensures reply.EntryRead? ==> next <= reply.position <= target
      ensures forall v :: v in versions ==> 0 < v <= |virtualLog.world.state.windows|
      ensures !reply.ReadLost? ==> 0 < version <= |virtualLog.world.state.windows|
      ensures SeesThrough(virtualLog.world.state, versions, f, target + 1) ==>
        SeesThrough(old(virtualLog.world.state), versions, f, target + 1)
      ensures Account(f, g, items, current, store.progress, target) ==>
        Account(f, h, items, current, store.progress, target)
      ensures SeesThrough(virtualLog.world.state, versions + {version}, f, target + 1) ==>
        && SeesThrough(virtualLog.world.state, versions, f, target + 1)
        && (reply.EntryRead? ==> Stopped(f, h, store.progress, reply.position, target, reply.payload))
        && (reply.NoEntry? ==> Passed(f, h, next, target + 1))
      ensures virtualLog.Undisturbed() && old(virtualLog.cached).Some? ==>
        && !reply.ReadLost? && virtualLog.world.state == old(virtualLog.world.state)
        && virtualLog.cached == old(virtualLog.cached)
        && (reply.NoEntry? ==> NothingListed(virtualLog.world.state, virtualLog.cached.value, next, target + 1))
    {
      hide Coherent, Account, Represents, SeesThrough, VirtualLogProtocol.Inv, VirtualLogProtocol.Grows,
        VirtualLogNetwork.Interference, FlatGrows, Stopped, Passed, SeesSettled, NothingListed;
      ghost var world := virtualLog.world;
      ghost var s := world.state;
      LogFits();
      reply, version, h := ReadRange(next, target + 1, g);
      VirtualLogNetwork.InterferenceGives(s, world.state, world.reserved);
      VirtualLogNetwork.InterferenceTransitive(s0, s, world.state, world.reserved);
      SeenBefore(s, world.state, versions, version, f, g, target + 1);
      ReadOn(f, g, h, items, current, store.progress, target);
      match reply
      case ReadLost(_) =>
      case NoEntry =>
        StoppedSince(f, g, h, store.progress, 0, target, None);
      case EntryRead(position, payload) =>
        StoppedSince(f, g, h, store.progress, position, target, payload);
    }

    /**
     Applies the entries after the store's progress up to `target`; `items` are those it applied, read
     through `versions`. However it ends, the store has replayed exactly them, and success means that the
     progress has reached `target` and the result is the one stored there. If the versions knew the
     settled part of the range, the items are the log's, up to what had been discarded, and a store that
     held the fold of the log holds it up to a settled target exactly when no command was passed over.
     */
    method MaterializeThrough(target: int, ghost f: Flat)
      returns (outcome: Outcome, ghost items: seq<Item>, ghost versions: set<nat>, ghost g: Flat)
      requires Valid() && Represents(virtualLog.world.state, decoder, f)
      modifies store, virtualLog.world`state, virtualLog`cached
      ensures Valid()
      ensures VirtualLogNetwork.Interference(old(virtualLog.world.state), virtualLog.world.state,
                                             virtualLog.world.reserved)
      ensures Represents(virtualLog.world.state, decoder, g) && g.settled == f.settled && FlatGrows(f, g)
      ensures old(store.progress) <= store.progress && ItemsWithin(items, old(store.progress), store.progress)
      ensures Replay(old(store.Contents()), items) == Some(store.Contents())
      ensures forall v :: v in versions ==> 0 < v <= |virtualLog.world.state.windows|
      ensures target <= old(store.progress) ==> store.Contents() == old(store.Contents())
      ensures outcome.Materialized? ==> target in store.applied && outcome.result == store.applied[target].result
      ensures outcome.Materialized? && old(store.progress) < target ==> store.progress == target
      ensures outcome.SyncRequired? ==>
        outcome.cause == if target <= old(store.progress) then NoStoredResult else NoEntryFound
      ensures outcome.SyncRequired? && target <= old(store.progress) ==> target !in old(store.applied)
      ensures outcome.Refused? ==> exists command ::
        KvReplay.Apply(store.Contents(), outcome.position, command).1 == RequestConflict
      ensures virtualLog.Undisturbed() && old(virtualLog.cached).Some? ==>
        && !outcome.ReadFailed? && virtualLog.world.state == old(virtualLog.world.state)
        && (outcome == SyncRequired(NoEntryFound) ==>
              NothingListed(virtualLog.world.state, old(virtualLog.cached).value, store.progress + 1, target + 1))
      ensures SeesThrough(virtualLog.world.state, versions, f, target + 1) ==>
        && Account(f, g, items, old(store.progress), store.progress, target)
        && Explains(store.Contents(), f, g, outcome, target)
      ensures
        (SeesThrough(virtualLog.world.state, versions, f, target + 1)
         && outcome.Materialized? && old(store.progress) < target < f.settled) ==>
        && target in f.entries
        && (KvReplay.Materialized(old(store.Contents()), Between(f.entries, -1, old(store.progress))) ==>
              (KvReplay.Materialized(store.Contents(), Between(f.entries, -1, target)) <==>
               AllListed(f.entries, items, old(store.progress), target)))
    {
      hide KvReplay.Apply, Coherent, ItemsWithin, AllListed, KvReplay.Materialized, Account, Represents, SeesThrough,
        VirtualLogProtocol.Inv, VirtualLogProtocol.Grows, VirtualLogNetwork.Interference, FlatGrows, Stopped, Passed,
        Replay, SeesSettled, NothingListed, VirtualLogClient.VirtualLog.Valid;
      items, versions, g := [], {}, f;
      ghost var was := store.Contents();
      ghost var world := virtualLog.world;
      ghost var s0 := world.state;
      LogFits();
      VirtualLogNetwork.InterferenceReflexive(s0, world.reserved);
      var current := store.progress;
      NothingApplied(f, current, target);
      assert Replay(was, []) == Some(was) by { NothingReplayed(was); }
      if target <= current {
        var existing := store.ResultAtPosition(target);
        outcome := if existing.Some? then Materialized(existing.value) else SyncRequired(NoStoredResult);
        return;
      }
      var result: Option<KvResult> := None;
      CoherentStart(store.Contents());
      var next := current + 1;
      while next <= target
        invariant Valid() && current <= store.progress == next - 1 <= target
        invariant VirtualLogNetwork.Interference(s0, world.state, world.reserved)
        invariant Represents(world.state, decoder, g) && g.settled == f.settled && FlatGrows(f, g)
        invariant Replay(old(store.Contents()), items) == Some(store.Contents())
        invariant ItemsWithin(items, current, store.progress)
        invariant forall v :: v in versions ==> 0 < v <= |world.state.windows|
        invariant virtualLog.Undisturbed() && old(virtualLog.cached).Some? ==>
          world.state == s0 && virtualLog.cached == old(virtualLog.cached)
        invariant SeesThrough(world.state, versions, f, target + 1) ==>
          Account(f, g, items, current, store.progress, target)
        invariant store.progress == current <==> result.None?
        invariant result.Some? ==>
          && store.progress in store.applied && store.applied[store.progress].result == result.value
          && (SeesThrough(world.state, versions, f, target + 1) && store.progress < f.settled ==>
                store.progress in f.entries)
        decreases target - next
      {
        var reply, version, h := ReadAhead(next, target, f, g, s0, items, current, versions);
        g := h;
        match reply
        case ReadLost(error) =>
          outcome := ReadFailed(error);
          return;
        case NoEntry =>
          versions := versions + {version};
          outcome := SyncRequired(NoEntryFound);
          return;
        case EntryRead(position, payload) =>
          versions := versions + {version};
          if payload.None? {
            outcome := InvalidKvPayload(position);
            return;
          }
          ghost var progress := store.progress;
          var applying := ApplyNext(position, payload.value, was, items, current);
          if applying.RequestConflict? {
            outcome := Refused(position);
            return;
          }
          ghost var item := Item(position, payload.value);
          if SeesThrough(world.state, versions, f, target + 1) {
            ApplyOn(f, g, items, current, progress, target, item);
            StoppedAt(f, g, progress, position, target, payload);
          }
          items := items + [item];
          result := Some(applying.result);
          next := position + 1;
      }
      outcome := Materialized(result.value);
      if target < f.settled && KvReplay.Materialized(old(store.Contents()), Between(f.entries, -1, current))
          && SeesThrough(world.state, versions, f, target + 1) {
        AccountFolds(f, g, old(store.Contents()), items, store.Contents(), current, target);
      }
    }
  }

  /** Why the materializer stopped short: the next entry of the log, or none where one was to be. */
  ghost predicate Explains(t: Tables, f: Flat, g: Flat, outcome: Outcome, target: int) {
    && (outcome.InvalidKvPayload? ==> Stopped(f, g, t.progress, outcome.position, target, None))
    && (outcome.Refused? ==> exists command ::
          && Stopped(f, g, t.progress, outcome.position, target, Some(command))
          && KvReplay.Apply(t, outcome.position, command).1 == RequestConflict)
    && (outcome == SyncRequired(NoEntryFound) ==> Passed(f, g, t.progress + 1, target + 1))
  }

  lemma StoppedAt(f: Flat, g: Flat, progress: int, position: nat, target: int, payload: Option<Envelope>)
    requires Stopped(f, g, progress, position, target, payload)
    ensures position < f.settled ==> position in f.entries
  {
  }

  lemma LaterView(s: VirtualLogProtocol.State, t: VirtualLogProtocol.State, decoder: Decoder, f: Flat) returns (g: Flat)
    requires VirtualLogProtocol.Inv(s) && VirtualLogProtocol.Inv(t) && VirtualLogProtocol.Grows(s, t)
    requires Represents(s, decoder, f)
    ensures Represents(t, decoder, g) && g.settled == f.settled && FlatGrows(f, g)
  {
    hide VirtualLogProtocol.Inv, VirtualLogProtocol.Grows;
    StaysSettled(s, t, f.settled);
    g := ViewExists(t, decoder, f.settled);
    ViewGrows(s, t, decoder, f, g);
  }

  /** What versions know in the end they knew before; the latest read's version is one more. */
  lemma SeenBefore(s: VirtualLogProtocol.State, t: VirtualLogProtocol.State, versions: set<nat>, version: nat,
      f: Flat, g: Flat, end: int)
    requires VirtualLogProtocol.Inv(s) && s.placed <= t.placed && s.windows <= t.windows && f.settled == g.settled
    requires forall v :: v in versions ==> v <= |s.windows|
    ensures SeesThrough(t, versions, f, end) ==> SeesThrough(s, versions, f, end)
    ensures SeesThrough(t, versions + {version}, f, end) ==>
      SeesThrough(t, versions, f, end) && SeesSettled(t, version, g, end)
  {
    hide VirtualLogProtocol.Inv;
    forall v | v in versions && SeesSettled(t, v, f, end)
      ensures SeesSettled(s, v, f, end)
    {
      VirtualLogProtocol.SameLengths(s);
      var w := VirtualLogTheorems.WindowFacts(s, v - 1, v - 1);
      assert w == t.windows[v - 1];
    }
  }

  lemma NothingReplayed(t: Tables)
    ensures Replay(t, []) == Some(t)
  {
  }

  lemma ReplayLonger(t: Tables, items: seq<Item>, u: Tables, item: Item)
    requires Replay(t, items) == Some(u)
    ensures var (v, outcome) := KvReplay.Apply(u, item.position, item.command);
      outcome.Done? ==> Replay(t, items + [item]) == Some(v)
  {
    hide KvReplay.Apply;
    assert (items + [item])[..|items|] == items;
  }

  lemma CoherentStart(t: Tables)
    requires Coherent(t)
    ensures -1 <= t.progress
  {
  }

  /**
   Past the progress, an applied entry moves it to its position and leaves its row there; a conflict
   changes nothing.
   */
  lemma NewPosition(t: Tables, position: int, command: Envelope)
    requires t.progress < position
    ensures var (u, outcome) := KvReplay.Apply(t, position, command);
      && (outcome.RequestConflict? ==> u == t)
      && (outcome.Done? ==>
            u.progress == position && position in u.applied && u.applied[position].result == outcome.result)
  {
    hide ApplyOperation;
  }
}
