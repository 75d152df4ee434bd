/**
 The two LogServer stores as objects, each holding many segments (native_loglet/memory_store.py,
 native_loglet/sqlite_store.py).
 */
module LogServers {
  import opened Wrappers
  import opened LogletStore

  type Rows = map<(string, nat), LogEntry>

  /** The rows of one segment, by position. */
  function SegmentEntries(rows: Rows, segmentId: string): (entries: map<nat, LogEntry>)
    ensures forall p :: p in entries <==> (segmentId, p) in rows
    ensures forall p :: p in entries ==> entries[p] == rows[(segmentId, p)]
  {
    map k | k in rows && k.0 == segmentId :: k.1 := rows[k]
  }

  function TrimRows(rows: Rows, segmentId: string, mark: nat): Rows {
    map k | k in rows && (k.0 != segmentId || mark <= k.1) :: rows[k]
  }

  lemma RowsUpdated(rows: Rows, entry: LogEntry, segmentId: string)
    ensures SegmentEntries(rows[(entry.segmentId, entry.position) := entry], segmentId)
         == if segmentId == entry.segmentId then SegmentEntries(rows, segmentId)[entry.position := entry]
            else SegmentEntries(rows, segmentId)
  {
  }

  lemma RowsTrimmed(rows: Rows, segmentId: string, mark: nat, other: string)
    ensures var entries := SegmentEntries(rows, other);
      SegmentEntries(TrimRows(rows, segmentId, mark), other)
        == if other == segmentId then map p | p in entries && mark <= p :: entries[p] else entries
  {
  }

  /** The in-memory store and its four dictionaries. */
  class MemoryLogletStore {
    var entries: map<(string, nat), LogEntry>
    var isSealed: set<string>
    var trimmedPrefixes: map<string, nat>
    var knownTails: map<string, nat>

    /** What the dictionaries say of one segment. */
    ghost function View(segmentId: string): SegmentState
      reads this
    {
      SegmentState(
        SegmentEntries(entries, segmentId),
        segmentId in isSealed,
        if segmentId in trimmedPrefixes then trimmedPrefixes[segmentId] else 0,
        if segmentId in knownTails then knownTails[segmentId] else 0)
    }

    constructor ()
      ensures forall segmentId :: View(segmentId) == EMPTY_SEGMENT
    {
      entries, isSealed, trimmedPrefixes, knownTails := map[], {}, map[], map[];
    }

    method Put(entry: LogEntry, knownTail: nat) returns (outcome: StoreOutcome)
      modifies this
      ensures (View(entry.segmentId), outcome) == LogletStore.Put(old(View(entry.segmentId)), entry, knownTail)
      ensures forall other :: other != entry.segmentId ==> View(other) == old(View(other))
    {
      ObserveKnownTail(entry.segmentId, knownTail);
      if entry.segmentId in isSealed {
        return SegmentSealed;
      }
      var key := (entry.segmentId, entry.position);
      if key in entries {
        return if entries[key] != entry then EntryConflict else Stored;
      }
      if 0 < entry.position && (entry.segmentId, entry.position - 1) !in entries
         && knownTails[entry.segmentId] <= entry.position - 1 {
        return PredecessorUnavailable;
      }
      outcome := Write(entry);
    }

    method Repair(entry: LogEntry, knownTail: nat) returns (outcome: StoreOutcome)
      modifies this
      ensures (View(entry.segmentId), outcome) == LogletStore.Repair(old(View(entry.segmentId)), entry, knownTail)
      ensures forall other :: other != entry.segmentId ==> View(other) == old(View(other))
    {
      ObserveKnownTail(entry.segmentId, knownTail);
      outcome := Write(entry);
    }

    method Write(entry: LogEntry) returns (outcome: StoreOutcome)
      modifies this`entries
      ensures (View(entry.segmentId), outcome) == LogletStore.Write(old(View(entry.segmentId)), entry)
      ensures forall other :: other != entry.segmentId ==> View(other) == old(View(other))
    {
      var trimmed := if entry.segmentId in trimmedPrefixes then trimmedPrefixes[entry.segmentId] else 0;
      if entry.position < trimmed {
        return PositionTrimmed;
      }
      var key := (entry.segmentId, entry.position);
      if key in entries && entries[key] != entry {
        return EntryConflict;
      }
      forall segmentId {
        RowsUpdated(entries, entry, segmentId);
      }
      entries := entries[key := entry];
      outcome := Stored;
    }

    method Get(segmentId: string, position: nat, knownTail: nat) returns (entry: Option<LogEntry>)
      modifies this`knownTails
      ensures View(segmentId) == Observe(old(View(segmentId)), knownTail)
      ensures entry == if position in View(segmentId).entries then Some(View(segmentId).entries[position]) else None
      ensures forall other :: other != segmentId ==> View(other) == old(View(other))
    {
      ObserveKnownTail(segmentId, knownTail);
      entry := if (segmentId, position) in entries then Some(entries[(segmentId, position)]) else None;
    }

    /** Negative positions are refused; the watermark never goes back. */
    method PrefixTrim(segmentId: string, trimPosition: int) returns (watermark: Option<nat>)
      modifies this
      ensures trimPosition < 0 <==> watermark == None
      ensures trimPosition < 0 ==> View(segmentId) == old(View(segmentId))
      ensures 0 <= trimPosition ==>
        && View(segmentId) == LogletStore.PrefixTrim(old(View(segmentId)), trimPosition)
        && watermark == Some(View(segmentId).trimmed)
      ensures forall other :: other != segmentId ==> View(other) == old(View(other))
    {
      if trimPosition < 0 {
        return None;
      }
      var mark: nat := if segmentId in trimmedPrefixes then trimmedPrefixes[segmentId] else 0;
      if mark < trimPosition {
        mark := trimPosition;
      }
      trimmedPrefixes := trimmedPrefixes[segmentId := mark];
      forall other {
        RowsTrimmed(entries, segmentId, mark, other);
      }
      entries := TrimRows(entries, segmentId, mark);
      watermark := Some(mark);
    }

    method Seal(segmentId: string, knownTail: nat)
      modifies this
      ensures View(segmentId) == LogletStore.Seal(old(View(segmentId)), knownTail)
      ensures forall other :: other != segmentId ==> View(other) == old(View(other))
    {
      ObserveKnownTail(segmentId, knownTail);
      isSealed := isSealed + {segmentId};
    }

    /** The reported tail is one past the highest position held or trimmed. */
    method State(segmentId: string, knownTail: nat) returns (state: LogServerState)
      modifies this`knownTails
      ensures View(segmentId) == Observe(old(View(segmentId)), knownTail)
      ensures state == StateOf(View(segmentId))
      ensures forall other :: other != segmentId ==> View(other) == old(View(other))
    {
      ObserveKnownTail(segmentId, knownTail);
      var mine := SegmentEntries(entries, segmentId);
      var trimmed := if segmentId in trimmedPrefixes then trimmedPrefixes[segmentId] else 0;
      var view := SegmentState(mine, segmentId in isSealed, trimmed, knownTails[segmentId]);
      var tail := FindLocalTail(view);
      state := LogServerState(tail, trimmed, knownTails[segmentId], segmentId in isSealed);
    }

    method ObserveKnownTail(segmentId: string, knownTail: nat)
      modifies this`knownTails
      ensures segmentId in knownTails
      ensures View(segmentId) == Observe(old(View(segmentId)), knownTail)
      ensures forall other :: other != segmentId ==> View(other) == old(View(other))
    {
      var current := if segmentId in knownTails then knownTails[segmentId] else 0;
      knownTails := knownTails[segmentId := if current < knownTail then knownTail else current];
    }
  }

  datatype SegmentRow = SegmentRow(isSealed: bool, trimmedPrefix: nat)

  /** The durable store: two tables that survive a crash, and known tails that do not. */
  class SQLiteLogletStore {
    var segments: map<string, SegmentRow>
    var rows: map<(string, nat), LogEntry>
    var knownTails: map<string, nat>

    ghost function View(segmentId: string): SegmentState
      reads this
    {
      SegmentState(
        SegmentEntries(rows, segmentId),
        segmentId in segments && segments[segmentId].isSealed,
        if segmentId in segments then segments[segmentId].trimmedPrefix else 0,
        if segmentId in knownTails then knownTails[segmentId] else 0)
    }

    constructor ()
      ensures forall segmentId :: View(segmentId) == EMPTY_SEGMENT
    {
      segments, rows, knownTails := map[], map[], map[];
    }

    /** A crash and a restart: entries, seals and trims stay, known tails are gone. */
    method CrashAndReopen()
      modifies this`knownTails
      ensures forall segmentId :: View(segmentId) == Reopen(old(View(segmentId)))
    {
      knownTails := map[];
    }

    method Put(entry: LogEntry, knownTail: nat) returns (outcome: StoreOutcome)
      modifies this
      ensures (View(entry.segmentId), outcome)
           == DurableWrite(old(View(entry.segmentId)), entry, knownTail, true, true)
      ensures forall other :: other != entry.segmentId ==> View(other) == old(View(other))
    {
      ObserveKnownTail(entry.segmentId, knownTail);
      outcome := Write(entry, true, true);
    }

    method Repair(entry: LogEntry, knownTail: nat) returns (outcome: StoreOutcome)
      modifies this
      ensures (View(entry.segmentId), outcome)
           == DurableWrite(old(View(entry.segmentId)), entry, knownTail, false, false)
      ensures forall other :: other != entry.segmentId ==> View(other) == old(View(other))
    {
      ObserveKnownTail(entry.segmentId, knownTail);
      outcome := Write(entry, false, false);
    }

    /** One transaction: every refusal rolls back, including the segment row just inserted. */
    method Write(entry: LogEntry, rejectIfSealed: bool, requirePredecessor: bool) returns (outcome: StoreOutcome)
      requires entry.segmentId in knownTails
      modifies this`segments, this`rows
      ensures (View(entry.segmentId), outcome)
           == DurableWrite(old(View(entry.segmentId)), entry, 0, rejectIfSealed, requirePredecessor)
      ensures forall other :: other != entry.segmentId ==> View(other) == old(View(other))
    {
      var row := if entry.segmentId in segments then segments[entry.segmentId] else SegmentRow(false, 0);
      if rejectIfSealed && row.isSealed {
        return SegmentSealed;
      }
      if entry.position < row.trimmedPrefix {
        return PositionTrimmed;
      }
      var key := (entry.segmentId, entry.position);
      if key in rows {
        if rows[key] != entry {
          return EntryConflict;
        }
        segments := segments[entry.segmentId := row];
        return Stored;
      }
      if requirePredecessor && 0 < entry.position && (entry.segmentId, entry.position - 1) !in rows
         && knownTails[entry.segmentId] <= entry.position - 1 {
        return PredecessorUnavailable;
      }
      var held := PositionForCommand(entry.segmentId, entry.commandId);
      if held.Some? && held.value != entry.position {
        return EntryConflict;
      }
      Insert(entry, row);
      outcome := Stored;
    }

    method Insert(entry: LogEntry, row: SegmentRow)
      modifies this`segments, this`rows
      ensures segments == old(segments)[entry.segmentId := row]
      ensures View(entry.segmentId).entries == old(View(entry.segmentId)).entries[entry.position := entry]
      ensures forall other :: other != entry.segmentId ==> View(other) == old(View(other))
    {
      hide SegmentEntries;
      segments := segments[entry.segmentId := row];
      forall segmentId {
        RowsUpdated(rows, entry, segmentId);
      }
      rows := rows[(entry.segmentId, entry.position) := entry];
    }

    method PositionForCommand(segmentId: string, commandId: string) returns (held: Option<nat>)
      ensures held.Some? ==> HasCommand(View(segmentId), commandId, held.value)
      ensures held.None? ==> forall p :: !HasCommand(View(segmentId), commandId, p)
    {
      var rest := rows.Keys;
      while rest != {}
        invariant rest <= rows.Keys
        invariant forall k :: k in rows && k !in rest && k.0 == segmentId ==> rows[k].commandId != commandId
        decreases rest
      {
        var k :| k in rest;
        if k.0 == segmentId && rows[k].commandId == commandId {
          return Some(k.1);
        }
        rest := rest - {k};
      }
      held := None;
    }

    method Seal(segmentId: string, knownTail: nat)
      modifies this
      ensures View(segmentId) == LogletStore.Seal(old(View(segmentId)), knownTail)
      ensures forall other :: other != segmentId ==> View(other) == old(View(other))
    {
      ObserveKnownTail(segmentId, knownTail);
      var row := if segmentId in segments then segments[segmentId] else SegmentRow(false, 0);
      segments := segments[segmentId := row.(isSealed := true)];
    }

    method PrefixTrim(segmentId: string, trimPosition: int) returns (watermark: Option<nat>)
      modifies this
      ensures trimPosition < 0 <==> watermark == None
      ensures trimPosition < 0 ==> View(segmentId) == old(View(segmentId))
      ensures 0 <= trimPosition ==>
        && View(segmentId) == LogletStore.PrefixTrim(old(View(segmentId)), trimPosition)
        && watermark == Some(View(segmentId).trimmed)
      ensures forall other :: other != segmentId ==> View(other) == old(View(other))
    {
      if trimPosition < 0 {
        return None;
      }
      var row := if segmentId in segments then segments[segmentId] else SegmentRow(false, 0);
      var mark := if row.trimmedPrefix < trimPosition then trimPosition else row.trimmedPrefix;
      segments := segments[segmentId := row.(trimmedPrefix := mark)];
      forall other {
        RowsTrimmed(rows, segmentId, mark, other);
      }
      rows := TrimRows(rows, segmentId, mark);
      watermark := Some(mark);
    }

    method ObserveKnownTail(segmentId: string, knownTail: nat)
      modifies this`knownTails
      ensures segmentId in knownTails
      ensures View(segmentId) == Observe(old(View(segmentId)), knownTail)
      ensures forall other :: other != segmentId ==> View(other) == old(View(other))
    {
      var current := if segmentId in knownTails then knownTails[segmentId] else 0;
      knownTails := knownTails[segmentId := if current < knownTail then knownTail else current];
    }
  }
}
