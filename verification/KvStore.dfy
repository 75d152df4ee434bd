/** The durable key-value store; each method is one transaction (kv/sqlite_store.py). */
module KvStore {
  import opened Wrappers
  import opened KvMachine
  import opened KvReplay
  import opened KvSnapshots

  datatype RestoreOutcome = Installed | InvalidSnapshot | NotPristine | DuplicateRow

  class SQLiteKvStore {
    var items: map<string, Value>
    var requests: map<RequestId, RequestRow>
    var applied: map<int, AppliedRow>
    var progress: int

    function Contents(): Tables
      reads this
    {
      Tables(items, requests, applied, progress)
    }

    ghost predicate Valid()
      reads this
    {
      Coherent(Contents())
    }

    constructor ()
      ensures Valid() && Contents() == PRISTINE
    {
      items, requests, applied, progress := map[], map[], map[], -1;
    }

    /** The row of a completed request. */
    method Request(id: RequestId) returns (row: Option<RequestRow>)
      ensures row.Some? <==> id in requests
      ensures row.Some? ==> row.value == requests[id]
    {
      row := if id in requests then Some(requests[id]) else None;
    }

    method ResultAtPosition(position: int) returns (result: Option<KvResult>)
      ensures result.Some? <==> position in applied
      ensures result.Some? ==> result.value == applied[position].result
    {
      result := if position in applied then Some(applied[position].result) else None;
    }

    /** Applies one entry; the transaction either takes full effect or, on a conflict, none. */
    method Apply(position: int, command: Envelope) returns (outcome: Applying)
      requires Valid()
      modifies this
      ensures Valid() && (Contents(), outcome) == KvReplay.Apply(old(Contents()), position, command)
    {
      ApplyKeepsCoherent(Contents(), position, command);
      if position <= progress {
        return ExistingPosition(position, command);
      }
      var result: KvResult;
      if IdOf(command) in requests {
        var prior := requests[IdOf(command)];
        if prior.command != command {
          return RequestConflict;
        }
        result := prior.result;
      } else {
        var machine := new KvStateMachine(items);
        result := machine.Apply(command.operation);
        items := machine.values;
        requests := requests[IdOf(command) := RequestRow(command, result, position)];
      }
      applied := applied[position := AppliedRow(command, result)];
      progress := position;
      outcome := Done(result);
    }

    function ExistingPosition(position: int, command: Envelope): Applying
      reads this
    {
      if position !in applied || applied[position].command != command then RequestConflict
      else Done(applied[position].result)
    }

    /** Captures the tables as rows, applied rows by position. */
    method ExportSnapshot() returns (data: SnapshotData)
      requires Valid()
      ensures Captures(data, Contents()) && WithinBounds(data) && ValidateProgress(data)
    {
      var requestRows := ListRequests();
      var appliedRows := ListApplied();
      data := SnapshotData(progress, items, requestRows, appliedRows);
      ValidExactlyWhenCoherent(data, Contents());
    }

    method ListRequests() returns (rows: seq<SnapshotRequest>)
      ensures UniqueIds(rows) && RequestMap(rows) == requests
    {
      hide RequestMap, UniqueIds;
      rows := [];
      EmptyRows();
      var rest := requests.Keys;
      while rest != {}
        invariant rest <= requests.Keys && UniqueIds(rows)
        invariant RequestMap(rows) == requests - rest
        decreases rest
      {
        var id :| id in rest;
        var row := SnapshotRequest(id.0, id.1, requests[id].command, requests[id].result, requests[id].firstPosition);
        RequestMapLonger(rows, row);
        UniqueLonger(rows, row);
        rows := rows + [row];
        rest := rest - {id};
      }
    }

    /** The applied rows by position. */
    method ListApplied() returns (rows: seq<SnapshotAppliedEntry>)
      requires Valid()
      ensures Ascending(rows) && AppliedMap(rows) == applied
    {
      hide AppliedMap, Below, Coherent;
      rows := [];
      EmptyRows();
      NoneBelow(Contents());
      for p := 0 to progress + 1
        invariant Ascending(rows) && forall i :: 0 <= i < |rows| ==> rows[i].position < p
        invariant AppliedMap(rows) == Below(applied, p)
      {
        if p in applied {
          var row := SnapshotAppliedEntry(p, applied[p].command, applied[p].result);
          AppliedMapLonger(rows, row);
          rows := rows + [row];
        }
        BelowNext(applied, p);
      }
    }

    /** Initializes a store that has applied nothing. */
    method InstallSnapshot(data: SnapshotData) returns (outcome: RestoreOutcome)
      requires Valid()
      modifies this
      ensures Valid()
      ensures outcome == NotPristine <==> WithinBounds(data) && ValidateProgress(data) && old(Contents()) != PRISTINE
      ensures outcome == InvalidSnapshot <==> !(WithinBounds(data) && ValidateProgress(data))
      ensures outcome == DuplicateRow ==> !UniqueIds(data.requests)
      ensures outcome == Installed <==>
        WithinBounds(data) && ValidateProgress(data) && old(Contents()) == PRISTINE && UniqueIds(data.requests)
      ensures Contents() == if outcome == Installed then Restored(data) else old(Contents())
    {
      outcome := RestoreSnapshot(data, true);
    }

    /** Rebases a replica whose log suffix was trimmed, whatever it holds. */
    method ReplaceBootstrapSnapshot(data: SnapshotData) returns (outcome: RestoreOutcome)
      requires Valid()
      modifies this
      ensures Valid()
      ensures outcome == Installed <==> WithinBounds(data) && ValidateProgress(data) && UniqueIds(data.requests)
      ensures Contents() == if outcome == Installed then Restored(data) else old(Contents())
    {
      outcome := RestoreSnapshot(data, false);
    }

    /** The tables are emptied and filled from the rows; a repeated request key rolls everything back. */
    method RestoreSnapshot(data: SnapshotData, requirePristine: bool) returns (outcome: RestoreOutcome)
      requires Valid()
      modifies this
      ensures Valid()
      ensures outcome == InvalidSnapshot <==> !(WithinBounds(data) && ValidateProgress(data))
      ensures outcome == NotPristine <==>
        WithinBounds(data) && ValidateProgress(data) && requirePristine && old(Contents()) != PRISTINE
      ensures outcome == DuplicateRow ==> !UniqueIds(data.requests)
      ensures outcome == Installed ==> UniqueIds(data.requests)
      ensures Contents() == if outcome == Installed then Restored(data) else old(Contents())
    {
      hide RequestMap, AppliedMap, UniqueIds, Coherent;
      if !WithinBounds(data) || !ValidateProgress(data) {
        return InvalidSnapshot;
      }
      if requirePristine && (progress != -1 || items != map[] || requests != map[] || applied != map[]) {
        return NotPristine;
      }
      EmptyRows();
      var filled: map<RequestId, RequestRow> := map[];
      for i := 0 to |data.requests|
        invariant filled == RequestMap(data.requests[..i]) && UniqueIds(data.requests[..i])
        invariant Contents() == old(Contents())
      {
        var row := data.requests[i];
        assert data.requests[..i + 1] == data.requests[..i] + [row];
        RequestMapLonger(data.requests[..i], row);
        UniqueLonger(data.requests[..i], row);
        if RowId(row) in filled {
          PrefixUnique(data.requests, i + 1);
          return DuplicateRow;
        }
        filled := filled[RowId(row) := RequestRow(row.command, row.result, row.firstPosition)];
      }
      assert data.requests[..|data.requests|] == data.requests;
      var listed: map<int, AppliedRow> := map[];
      for i := 0 to |data.appliedEntries|
        invariant listed == AppliedMap(data.appliedEntries[..i])
        invariant Contents() == old(Contents())
      {
        var row := data.appliedEntries[i];
        assert data.appliedEntries[..i + 1] == data.appliedEntries[..i] + [row];
        AppliedMapLonger(data.appliedEntries[..i], row);
        listed := listed[row.position := AppliedRow(row.command, row.result)];
      }
      assert data.appliedEntries[..|data.appliedEntries|] == data.appliedEntries;
      items, requests, applied, progress := data.values, filled, listed, data.appliedPosition;
      RestoredCoherent(data);
      outcome := Installed;
    }
  }

  lemma EmptyRows()
    ensures RequestMap([]) == map[] && UniqueIds([]) && AppliedMap([]) == map[]
  {
  }

  lemma PrefixUnique(rows: seq<SnapshotRequest>, n: nat)
    requires n <= |rows| && !UniqueIds(rows[..n])
    ensures !UniqueIds(rows)
  {
    var i, j :| 0 <= i < j < n && RowId(rows[..n][i]) == RowId(rows[..n][j]);
    assert rows[i] == rows[..n][i] && rows[j] == rows[..n][j];
  }

  ghost function Below(applied: map<int, AppliedRow>, position: int): map<int, AppliedRow> {
    map p | p in applied && p < position :: applied[p]
  }

  lemma NoneBelow(t: Tables)
    requires Coherent(t)
    ensures -1 <= t.progress && Below(t.applied, 0) == map[] && Below(t.applied, t.progress + 1) == t.applied
  {
  }

  lemma BelowNext(applied: map<int, AppliedRow>, position: int)
    ensures Below(applied, position + 1) ==
      if position in applied then Below(applied, position)[position := applied[position]]
      else Below(applied, position)
  {
  }
}
