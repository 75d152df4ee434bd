/**
 One LogServer's copy of one segment: the in-memory store (native_loglet/memory_store.py) and the
 durable one (native_loglet/sqlite_store.py), and what every request does to it.
 */
module LogletStore {
  import opened Wrappers

  datatype LogEntry = LogEntry(segmentId: string, position: nat, commandId: string, payload: seq<int>)

  /** A server's knowledge of one segment. `knownTail` lives in memory only; the rest is durable. */
  datatype SegmentState = SegmentState(
    entries: map<nat, LogEntry>,
    isSealed: bool,
    trimmed: nat,
    knownTail: nat)
  {
    ghost predicate Covers(position: nat) {
      position < trimmed || position in entries
    }
  }

  const EMPTY_SEGMENT := SegmentState(map[], false, 0, 0)

  datatype LogServerState = LogServerState(localTail: nat, trimmedPrefix: nat, knownTail: nat, isSealed: bool)

  datatype StoreOutcome = Stored | SegmentSealed | EntryConflict | PredecessorUnavailable | PositionTrimmed

  function Max(a: nat, b: nat): nat {
    if a < b then b else a
  }

  function Observe(s: SegmentState, knownTail: nat): SegmentState {
    s.(knownTail := Max(s.knownTail, knownTail))
  }

  function Write(s: SegmentState, entry: LogEntry): (SegmentState, StoreOutcome) {
    if entry.position < s.trimmed then (s, PositionTrimmed)
    else if entry.position in s.entries && s.entries[entry.position] != entry then (s, EntryConflict)
    else (s.(entries := s.entries[entry.position := entry]), Stored)
  }

  predicate LacksPredecessor(s: SegmentState, position: nat) {
    0 < position && position - 1 !in s.entries && s.knownTail <= position - 1
  }

  function Put(before: SegmentState, entry: LogEntry, knownTail: nat): (SegmentState, StoreOutcome) {
    var s := Observe(before, knownTail);
    if s.isSealed then (s, SegmentSealed)
    else if entry.position in s.entries then
      (s, if s.entries[entry.position] != entry then EntryConflict else Stored)
    else if LacksPredecessor(s, entry.position) then (s, PredecessorUnavailable)
    else Write(s, entry)
  }

  function Repair(before: SegmentState, entry: LogEntry, knownTail: nat): (SegmentState, StoreOutcome) {
    Write(Observe(before, knownTail), entry)
  }

  function PrefixTrim(s: SegmentState, trimPosition: nat): SegmentState {
    var watermark := Max(s.trimmed, trimPosition);
    s.(trimmed := watermark, entries := map p | p in s.entries && watermark <= p :: s.entries[p])
  }

  function Seal(s: SegmentState, knownTail: nat): SegmentState {
    Observe(s, knownTail).(isSealed := true)
  }

  function Reopen(s: SegmentState): SegmentState {
    s.(knownTail := 0)
  }

  /**
   What a put answers: the seal comes first; an entry already there is confirmed or contradicted; a new one
   is stored exactly when it follows something, or something it may follow is known, and is not trimmed.
   Nothing but that entry and the known tail changes.
   */
  lemma PutAnswers(s: SegmentState, entry: LogEntry, knownTail: nat)
    ensures var (t, outcome) := Put(s, entry, knownTail);
      var p, known := entry.position, Max(s.knownTail, knownTail);
      && (outcome == SegmentSealed <==> s.isSealed)
      && (outcome == Stored <==>
            && !s.isSealed
            && if p in s.entries then s.entries[p] == entry
               else s.trimmed <= p && (p == 0 || p - 1 in s.entries || p <= known))
      && (outcome == EntryConflict <==> !s.isSealed && p in s.entries && s.entries[p] != entry)
      && (outcome == PositionTrimmed ==> p < s.trimmed)
      && (outcome == PredecessorUnavailable ==> known < p && p - 1 !in s.entries)
      && t == s.(entries := if outcome == Stored then s.entries[p := entry] else s.entries, knownTail := known)
  {
    if entry.position in s.entries && s.entries[entry.position] == entry {
      assert s.entries[entry.position := entry] == s.entries;
    }
  }

  /** A repair looks at trims and contradictions only; seals and gaps do not stop it. */
  lemma RepairAnswers(s: SegmentState, entry: LogEntry, knownTail: nat)
    ensures var (t, outcome) := Repair(s, entry, knownTail);
      var p := entry.position;
      && (outcome == PositionTrimmed <==> p < s.trimmed)
      && (outcome == EntryConflict <==> s.trimmed <= p && p in s.entries && s.entries[p] != entry)
      && (outcome == Stored <==> s.trimmed <= p && (p in s.entries ==> s.entries[p] == entry))
      && t == s.(entries := if outcome == Stored then s.entries[p := entry] else s.entries,
                 knownTail := Max(s.knownTail, knownTail))
  {
  }

  /** Puts of a segment's entries in order, each naming the next position as known. */
  function PutAll(s: SegmentState, entries: seq<LogEntry>): SegmentState {
    if entries == [] then s
    else Put(PutAll(s, entries[..|entries| - 1]), entries[|entries| - 1], |entries| - 1).0
  }

  /** A fresh server that is sent a segment's entries in order holds all of them and reports their number. */
  lemma {:induction false} InOrderAllStored(entries: seq<LogEntry>)
    requires forall i :: 0 <= i < |entries| ==> entries[i].position == i
    ensures var s := PutAll(EMPTY_SEGMENT, entries);
      && !s.isSealed && s.trimmed == 0 && LocalTail(s) == |entries|
      && (forall p: nat :: p in s.entries <==> p < |entries|)
      && (forall p: nat :: p < |entries| ==> s.entries[p] == entries[p])
  {
    hide LocalTail;
    var s := PutAll(EMPTY_SEGMENT, entries);
    if entries != [] {
      var shorter, last := entries[..|entries| - 1], entries[|entries| - 1];
      InOrderAllStored(shorter);
      PutAnswers(PutAll(EMPTY_SEGMENT, shorter), last, |entries| - 1);
    }
    LocalTailUnique(s, |entries|);
  }

  // ---- The durable store's order of checks -------------------------------------------------

  /** The row that holds a command, if any. */
  ghost predicate HasCommand(s: SegmentState, commandId: string, position: nat) {
    position in s.entries && s.entries[position].commandId == commandId
  }

  ghost predicate CommandElsewhere(s: SegmentState, entry: LogEntry) {
    exists p :: p != entry.position && HasCommand(s, entry.commandId, p)
  }

  ghost function DurableWrite(
      before: SegmentState, entry: LogEntry, knownTail: nat, rejectIfSealed: bool, requirePredecessor: bool)
    : (SegmentState, StoreOutcome)
  {
    var s := Observe(before, knownTail);
    if rejectIfSealed && s.isSealed then (s, SegmentSealed)
    else if entry.position < s.trimmed then (s, PositionTrimmed)
    else if entry.position in s.entries then
      (s, if s.entries[entry.position] != entry then EntryConflict else Stored)
    else if requirePredecessor && LacksPredecessor(s, entry.position) then (s, PredecessorUnavailable)
    else if CommandElsewhere(s, entry) then (s, EntryConflict)
    else (s.(entries := s.entries[entry.position := entry]), Stored)
  }

  /** Trimmed positions hold nothing. */
  ghost predicate TrimmedAway(s: SegmentState) {
    forall p :: p in s.entries ==> s.trimmed <= p
  }

  /**
   The two stores end in the same state and accept the same requests, as long as one command is not
   sent for two positions; they may name a refusal differently.
   */
  lemma StoresAgree(s: SegmentState, entry: LogEntry, knownTail: nat)
    requires TrimmedAway(s)
    ensures var (m, mo) := Put(s, entry, knownTail);
      var (d, do) := DurableWrite(s, entry, knownTail, true, true);
      !CommandElsewhere(s, entry) ==> m == d && (mo.Stored? <==> do.Stored?)
    ensures var (m, mo) := Repair(s, entry, knownTail);
      var (d, do) := DurableWrite(s, entry, knownTail, false, false);
      !CommandElsewhere(s, entry) ==> m == d && mo == do
  {
    var seen := Observe(s, knownTail);
    forall p | HasCommand(seen, entry.commandId, p)
      ensures HasCommand(s, entry.commandId, p)
    {
    }
    if entry.position in s.entries && s.entries[entry.position] == entry {
      assert s.entries[entry.position := entry] == s.entries;
    }
  }

  /** No command is held at two positions. */
  ghost predicate OneRowPerCommand(s: SegmentState) {
    forall p, q :: p in s.entries && q in s.entries && s.entries[p].commandId == s.entries[q].commandId ==> p == q
  }

  /**
   What the durable store answers: a seal and a trim come first; then the row already there, a missing
   predecessor, and the command's row elsewhere. It never holds a command twice, and nothing but the entry
   and the known tail changes.
   */
  lemma DurableAnswers(s: SegmentState, entry: LogEntry, knownTail: nat, rejectIfSealed: bool,
      requirePredecessor: bool)
    ensures var (t, outcome) := DurableWrite(s, entry, knownTail, rejectIfSealed, requirePredecessor);
      var p, known := entry.position, Max(s.knownTail, knownTail);
      var follows := p == 0 || p - 1 in s.entries || p <= known;
      && (outcome == SegmentSealed <==> rejectIfSealed && s.isSealed)
      && (outcome == PositionTrimmed <==> !(rejectIfSealed && s.isSealed) && p < s.trimmed)
      && (outcome == Stored <==>
            && !(rejectIfSealed && s.isSealed) && s.trimmed <= p
            && if p in s.entries then s.entries[p] == entry
               else (requirePredecessor ==> follows) && !CommandElsewhere(s, entry))
      && (outcome == PredecessorUnavailable ==> requirePredecessor && !follows)
      && (OneRowPerCommand(s) ==> OneRowPerCommand(t))
      && t == s.(entries := if outcome == Stored then s.entries[p := entry] else s.entries, knownTail := known)
  {
    var seen := Observe(s, knownTail);
    assert forall q :: HasCommand(seen, entry.commandId, q) <==> HasCommand(s, entry.commandId, q);
    if entry.position in s.entries && s.entries[entry.position] == entry {
      assert s.entries[entry.position := entry] == s.entries;
    }
    var t := DurableWrite(s, entry, knownTail, rejectIfSealed, requirePredecessor).0;
    if OneRowPerCommand(s) {
      forall p, q | p in t.entries && q in t.entries && t.entries[p].commandId == t.entries[q].commandId
        ensures p == q
      {
        assert p != entry.position ==> HasCommand(s, t.entries[p].commandId, p);
        assert q != entry.position ==> HasCommand(s, t.entries[q].commandId, q);
      }
    }
  }

  // ---- The local tail ----------------------------------------------------------------------

  ghost predicate IsLocalTail(s: SegmentState, tail: nat) {
    && s.trimmed <= tail
    && (forall p :: p in s.entries ==> p < tail)
    && (tail == s.trimmed || tail - 1 in s.entries)
  }

  /** One past the highest position held or trimmed. */
  ghost function LocalTail(s: SegmentState): (tail: nat)
    ensures IsLocalTail(s, tail)
  {
    LocalTailExists(s, s.entries.Keys, s.trimmed);
    var tail :| IsLocalTail(s, tail);
    tail
  }

  lemma {:induction false} LocalTailExists(s: SegmentState, rest: set<nat>, tail: nat)
    requires rest <= s.entries.Keys && s.trimmed <= tail && (tail == s.trimmed || tail - 1 in s.entries)
    requires forall p :: p in s.entries && p !in rest ==> p < tail
    ensures exists t: nat :: IsLocalTail(s, t)
    decreases rest
  {
    if rest == {} {
      assert IsLocalTail(s, tail);
    } else {
      var p :| p in rest;
      LocalTailExists(s, rest - {p}, if tail <= p then p + 1 else tail);
    }
  }

  lemma LocalTailUnique(s: SegmentState, tail: nat)
    requires IsLocalTail(s, tail)
    ensures tail == LocalTail(s)
  {
  }

  method FindLocalTail(s: SegmentState) returns (tail: nat)
    ensures tail == LocalTail(s)
  {
    tail := s.trimmed;
    var rest := s.entries.Keys;
    while rest != {}
      invariant rest <= s.entries.Keys
      invariant s.trimmed <= tail && (tail == s.trimmed || tail - 1 in s.entries)
      invariant forall p :: p in s.entries && p !in rest ==> p < tail
      decreases rest
    {
      var p :| p in rest;
      rest := rest - {p};
      if tail <= p {
        tail := p + 1;
      }
    }
    LocalTailUnique(s, tail);
  }

  ghost function StateOf(s: SegmentState): LogServerState {
    LogServerState(LocalTail(s), s.trimmed, s.knownTail, s.isSealed)
  }

  /** No request, and no crash, moves a server's tail, seal or trim back, or drops a position uncounted. */
  ghost predicate ServerGrows(a: SegmentState, b: SegmentState) {
    && LocalTail(a) <= LocalTail(b)
    && a.trimmed <= b.trimmed
    && (a.isSealed ==> b.isSealed)
    && (forall p :: p in a.entries && b.trimmed <= p ==> p in b.entries && b.entries[p] == a.entries[p])
    && (forall p :: a.Covers(p) ==> b.Covers(p))
  }

  lemma WriteGrows(s: SegmentState, entry: LogEntry)
    requires TrimmedAway(s)
    ensures ServerGrows(s, Write(s, entry).0) && TrimmedAway(Write(s, entry).0)
  {
    var t := Write(s, entry).0;
    if t != s {
      assert IsLocalTail(t, Max(LocalTail(s), entry.position + 1)) by {
        assert IsLocalTail(s, LocalTail(s));
      }
      LocalTailUnique(t, Max(LocalTail(s), entry.position + 1));
    }
  }

  lemma ObserveGrows(s: SegmentState, knownTail: nat)
    ensures LocalTail(Observe(s, knownTail)) == LocalTail(s)
    ensures ServerGrows(s, Observe(s, knownTail))
  {
    var t := Observe(s, knownTail);
    assert IsLocalTail(t, LocalTail(s));
  }

  lemma ServerGrowsTransitive(a: SegmentState, b: SegmentState, c: SegmentState)
    requires ServerGrows(a, b) && ServerGrows(b, c)
    ensures ServerGrows(a, c)
  {
  }

  lemma RequestsGrow(s: SegmentState, entry: LogEntry, knownTail: nat, trimPosition: nat)
    requires TrimmedAway(s)
    ensures ServerGrows(s, Put(s, entry, knownTail).0) && TrimmedAway(Put(s, entry, knownTail).0)
    ensures ServerGrows(s, Repair(s, entry, knownTail).0) && TrimmedAway(Repair(s, entry, knownTail).0)
    ensures ServerGrows(s, PrefixTrim(s, trimPosition)) && TrimmedAway(PrefixTrim(s, trimPosition))
    ensures ServerGrows(s, Seal(s, knownTail)) && TrimmedAway(Seal(s, knownTail))
    ensures ServerGrows(s, Reopen(s)) && TrimmedAway(Reopen(s))
  {
    hide LocalTail, ServerGrows, Write;
    var o := Observe(s, knownTail);
    ObserveGrows(s, knownTail);
    WriteGrows(o, entry);
    ServerGrowsTransitive(s, o, Write(o, entry).0);
    TrimGrows(s, trimPosition);
    FlagsGrow(s, knownTail);
  }

  lemma TrimGrows(s: SegmentState, trimPosition: nat)
    requires TrimmedAway(s)
    ensures ServerGrows(s, PrefixTrim(s, trimPosition)) && TrimmedAway(PrefixTrim(s, trimPosition))
    ensures LocalTail(PrefixTrim(s, trimPosition)) == Max(LocalTail(s), trimPosition)
  {
    var t := PrefixTrim(s, trimPosition);
    assert IsLocalTail(s, LocalTail(s));
    assert IsLocalTail(t, Max(LocalTail(s), trimPosition));
    LocalTailUnique(t, Max(LocalTail(s), trimPosition));
  }

  lemma FlagsGrow(s: SegmentState, knownTail: nat)
    requires TrimmedAway(s)
    ensures ServerGrows(s, Seal(s, knownTail)) && TrimmedAway(Seal(s, knownTail))
    ensures ServerGrows(s, Reopen(s)) && TrimmedAway(Reopen(s))
    ensures LocalTail(Seal(s, knownTail)) == LocalTail(s) == LocalTail(Reopen(s))
  {
    assert IsLocalTail(s, LocalTail(s));
    assert IsLocalTail(Seal(s, knownTail), LocalTail(s));
    assert IsLocalTail(Reopen(s), LocalTail(s));
  }
}
