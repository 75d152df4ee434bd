/** Snapshots of the key-value store and their validation (kv/snapshot.py), and what installing one means. */
module KvSnapshots {
  import opened Wrappers
  import opened KvMachine
  import opened KvReplay

  datatype SnapshotRequest = SnapshotRequest(
    clientId: string,
    requestId: string,
    command: Envelope,
    result: KvResult,
    firstPosition: int)

  datatype SnapshotAppliedEntry = SnapshotAppliedEntry(position: int, command: Envelope, result: KvResult)

  datatype SnapshotData = SnapshotData(
    appliedPosition: int,
    values: map<string, Value>,
    requests: seq<SnapshotRequest>,
    appliedEntries: seq<SnapshotAppliedEntry>)

  /** The field constraints of the snapshot's rows. */
  predicate WithinBounds(data: SnapshotData) {
    && -1 <= data.appliedPosition
    && (forall i :: 0 <= i < |data.requests| ==> RowWithinBounds(data.requests[i]))
    && (forall i :: 0 <= i < |data.appliedEntries| ==> 0 <= data.appliedEntries[i].position)
  }

  predicate RowWithinBounds(row: SnapshotRequest) {
    row.clientId != "" && row.requestId != "" && 0 <= row.firstPosition
  }

  predicate Ascending(entries: seq<SnapshotAppliedEntry>) {
    forall i, j :: 0 <= i < j < |entries| ==> entries[i].position < entries[j].position
  }

  predicate ValidateProgress(data: SnapshotData) {
    if !Ascending(data.appliedEntries) then false
    else if data.appliedPosition == -1 then
      data.values == map[] && data.requests == [] && data.appliedEntries == []
    else if data.appliedEntries == [] then false
    else if data.appliedEntries[|data.appliedEntries| - 1].position != data.appliedPosition then false
    else forall i :: 0 <= i < |data.requests| ==> data.requests[i].firstPosition <= data.appliedPosition
  }

  // ---- Rows and tables ---------------------------------------------------------------------------

  function RowId(row: SnapshotRequest): RequestId {
    (row.clientId, row.requestId)
  }

  ghost predicate UniqueIds(rows: seq<SnapshotRequest>) {
    forall i, j :: 0 <= i < j < |rows| ==> RowId(rows[i]) != RowId(rows[j])
  }

  /** The request table the rows fill. */
  function RequestMap(rows: seq<SnapshotRequest>): (m: map<RequestId, RequestRow>)
    ensures forall i :: 0 <= i < |rows| ==> RowId(rows[i]) in m
    ensures forall id :: id in m ==> exists i :: 0 <= i < |rows| && RowId(rows[i]) == id
  {
    if rows == [] then map[]
    else
      var row := rows[|rows| - 1];
      var rest := RequestMap(rows[..|rows| - 1]);
      assert forall i :: 0 <= i < |rows| - 1 ==> rows[i] == rows[..|rows| - 1][i];
      rest[RowId(row) := RequestRow(row.command, row.result, row.firstPosition)]
  }

  function AppliedMap(rows: seq<SnapshotAppliedEntry>): (m: map<int, AppliedRow>)
    ensures forall i :: 0 <= i < |rows| ==> rows[i].position in m
    ensures forall p :: p in m ==> exists i :: 0 <= i < |rows| && rows[i].position == p
  {
    if rows == [] then map[]
    else
      var row := rows[|rows| - 1];
      var rest := AppliedMap(rows[..|rows| - 1]);
      assert forall i :: 0 <= i < |rows| - 1 ==> rows[i] == rows[..|rows| - 1][i];
      rest[row.position := AppliedRow(row.command, row.result)]
  }

  lemma RequestMapLonger(rows: seq<SnapshotRequest>, row: SnapshotRequest)
    ensures RequestMap(rows + [row]) ==
      RequestMap(rows)[RowId(row) := RequestRow(row.command, row.result, row.firstPosition)]
  {
    assert (rows + [row])[..|rows|] == rows;
  }

  lemma AppliedMapLonger(rows: seq<SnapshotAppliedEntry>, row: SnapshotAppliedEntry)
    ensures AppliedMap(rows + [row]) == AppliedMap(rows)[row.position := AppliedRow(row.command, row.result)]
  {
    assert (rows + [row])[..|rows|] == rows;
  }

  /** A row under a new identifier keeps the identifiers unique; one under an old identifier does not. */
  lemma UniqueLonger(rows: seq<SnapshotRequest>, row: SnapshotRequest)
    requires UniqueIds(rows)
    ensures UniqueIds(rows + [row]) <==> RowId(row) !in RequestMap(rows)
  {
    var longer := rows + [row];
    if RowId(row) in RequestMap(rows) {
      var i :| 0 <= i < |rows| && RowId(rows[i]) == RowId(row);
      assert RowId(longer[i]) == RowId(longer[|rows|]);
    }
  }

  /** Each row is in the table under its own identifier. */
  lemma {:induction false} RequestMapRow(rows: seq<SnapshotRequest>, i: nat)
    requires UniqueIds(rows) && i < |rows|
    ensures RequestMap(rows)[RowId(rows[i])] == RequestRow(rows[i].command, rows[i].result, rows[i].firstPosition)
  {
    if i < |rows| - 1 {
      var shorter := rows[..|rows| - 1];
      RequestMapRow(shorter, i);
      assert shorter[i] == rows[i] && RowId(rows[i]) != RowId(rows[|rows| - 1]);
    }
  }

  function Restored(data: SnapshotData): Tables {
    Tables(data.values, RequestMap(data.requests), AppliedMap(data.appliedEntries), data.appliedPosition)
  }

  /** The snapshot lists every row of the tables once, applied rows by position. */
  ghost predicate Captures(data: SnapshotData, t: Tables) {
    && data.values == t.items && data.appliedPosition == t.progress
    && UniqueIds(data.requests) && RequestMap(data.requests) == t.requests
    && Ascending(data.appliedEntries) && AppliedMap(data.appliedEntries) == t.applied
  }

  /** What every store satisfies: nothing before the first entry, and never a row above the progress. */
  ghost predicate Coherent(t: Tables) {
    && -1 <= t.progress
    && (t.progress == -1 ==> t == PRISTINE)
    && (t.progress != -1 ==> t.progress in t.applied)
    && (forall p :: p in t.applied ==> 0 <= p <= t.progress)
    && (forall id :: id in t.requests ==>
          id.0 != "" && id.1 != "" && 0 <= t.requests[id].firstPosition <= t.progress)
  }

  lemma ApplyKeepsCoherent(t: Tables, position: int, command: Envelope)
    requires Coherent(t)
    ensures Coherent(Apply(t, position, command).0)
  {
    hide ApplyOperation;
  }

  /** A snapshot of the tables passes validation exactly when they are coherent. */
  lemma ValidExactlyWhenCoherent(data: SnapshotData, t: Tables)
    requires Captures(data, t)
    ensures WithinBounds(data) && ValidateProgress(data) <==> Coherent(t)
  {
    if Coherent(t) {
      CoherentIsValid(data, t);
    }
    if WithinBounds(data) && ValidateProgress(data) {
      ValidIsCoherent(data, t);
    }
  }

  lemma CoherentIsValid(data: SnapshotData, t: Tables)
    requires Captures(data, t) && Coherent(t)
    ensures WithinBounds(data) && ValidateProgress(data)
  {
    forall i | 0 <= i < |data.requests|
      ensures RowWithinBounds(data.requests[i]) && data.requests[i].firstPosition <= t.progress
    {
      RequestMapRow(data.requests, i);
      assert RowId(data.requests[i]) in t.requests;
    }
    var n := |data.appliedEntries|;
    assert forall i :: 0 <= i < n ==> data.appliedEntries[i].position in t.applied;
    assert forall i :: 0 <= i < |data.requests| ==> RowId(data.requests[i]) in t.requests;
    if t.progress != -1 {
      assert forall i :: 0 <= i < n ==> data.appliedEntries[i].position <= data.appliedEntries[n - 1].position;
      var i :| 0 <= i < n && data.appliedEntries[i].position == t.progress;
    }
  }

  lemma ValidIsCoherent(data: SnapshotData, t: Tables)
    requires Captures(data, t) && WithinBounds(data) && ValidateProgress(data)
    ensures Coherent(t)
  {
    var n := |data.appliedEntries|;
    forall p | p in t.applied
      ensures 0 <= p <= t.progress
    {
      var i :| 0 <= i < n && data.appliedEntries[i].position == p;
      assert i < n - 1 ==> data.appliedEntries[i].position < data.appliedEntries[n - 1].position;
    }
    forall id | id in t.requests
      ensures id.0 != "" && id.1 != "" && 0 <= t.requests[id].firstPosition <= t.progress
    {
      var i :| 0 <= i < |data.requests| && RowId(data.requests[i]) == id;
      RequestMapRow(data.requests, i);
    }
  }

  /**
   A valid snapshot installs as coherent tables, whoever made it, as long as it lists no request twice.
   */
  lemma RestoredCoherent(data: SnapshotData)
    requires WithinBounds(data) && ValidateProgress(data) && UniqueIds(data.requests)
    ensures Coherent(Restored(data)) && Captures(data, Restored(data))
  {
    ValidExactlyWhenCoherent(data, Restored(data));
  }

  /** Export, then install: the same tables. */
  lemma TransferRoundTrip(data: SnapshotData, t: Tables)
    requires Captures(data, t)
    ensures Restored(data) == t
  {
  }

  lemma {:induction false} ReplayMaterializes(t: Tables, log: seq<Item>, more: seq<Item>)
    requires Materialized(t, log) && Rising(log + more) && Replay(t, more).Some?
    ensures Materialized(Replay(t, more).value, log + more)
  {
    hide Materialized, Apply, Fold, Answer;
    if more == [] {
      assert log + more == log;
    } else {
      var shorter, item := more[..|more| - 1], more[|more| - 1];
      assert log + more == (log + shorter) + [item];
      RisingPrefix(log + shorter, [item]);
      ReplayMaterializes(t, log, shorter);
      ApplyMaterializes(Replay(t, shorter).value, log + shorter, item);
    }
  }

  /**
   A snapshot taken after a prefix, installed elsewhere and followed by the suffix, gives the same values,
   request table, position table and progress as replaying the whole log, and fails on the same logs.
   */
  lemma SnapshotTransfer(prefix: seq<Item>, suffix: seq<Item>, data: SnapshotData)
    requires Rising(prefix + suffix) && NoReuse(prefix)
    requires Replay(PRISTINE, prefix).Some? ==> Captures(data, Replay(PRISTINE, prefix).value)
    ensures Replay(Restored(data), suffix) == Replay(PRISTINE, prefix + suffix)
    ensures Replay(Restored(data), suffix).Some? <==> NoReuse(prefix + suffix)
    ensures Replay(Restored(data), suffix).Some? ==> Materialized(Replay(Restored(data), suffix).value, prefix + suffix)
  {
    hide Materialized, Apply, Fold, Answer;
    RisingPrefix(prefix, suffix);
    ExactlyOnce(prefix);
    TransferRoundTrip(data, Replay(PRISTINE, prefix).value);
    ReplayAppend(PRISTINE, prefix, suffix);
    ExactlyOnce(prefix + suffix);
  }
}
