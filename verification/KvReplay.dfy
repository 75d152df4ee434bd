/**
 The store's tables and what applying one log entry does to them (kv/sqlite_store.py), against a fold
 over the first occurrence of each request.
 */
module KvReplay {
  import opened Wrappers
  import opened KvMachine

  type RequestId = (string, string)

  datatype RequestRow = RequestRow(command: Envelope, result: KvResult, firstPosition: int)

  datatype AppliedRow = AppliedRow(command: Envelope, result: KvResult)

  /** `progress` is the highest applied position, -1 before the first. */
  datatype Tables = Tables(
    items: map<string, Value>,
    requests: map<RequestId, RequestRow>,
    applied: map<int, AppliedRow>,
    progress: int)

  const PRISTINE := Tables(map[], map[], map[], -1)

  datatype Applying = Done(result: KvResult) | RequestConflict

  function IdOf(command: Envelope): RequestId {
    (command.clientId, command.requestId)
  }

  /** One transaction: an old position answers from its row, a known request repeats its first result. */
  function Apply(t: Tables, position: int, command: Envelope): (Tables, Applying) {
    if position <= t.progress then
      (t, if position in t.applied && t.applied[position].command == command then Done(t.applied[position].result)
          else RequestConflict)
    else if IdOf(command) in t.requests then
      var prior := t.requests[IdOf(command)];
      if prior.command != command then (t, RequestConflict)
      else (t.(applied := t.applied[position := AppliedRow(command, prior.result)], progress := position),
            Done(prior.result))
    else
      var effect := ApplyOperation(t.items, command.operation);
      (Tables(effect.values,
              t.requests[IdOf(command) := RequestRow(command, effect.result, position)],
              t.applied[position := AppliedRow(command, effect.result)],
              position),
       Done(effect.result))
  }

  // ---- The log and its fold -------------------------------------------------------------------

  datatype Item = Item(position: nat, command: Envelope)

  /** Positions rise, possibly with gaps. */
  ghost predicate Rising(log: seq<Item>) {
    forall i, j :: 0 <= i < j < |log| ==> log[i].position < log[j].position
  }

  /** The first index at which the request of `command` occurs, or the log's length. */
  function FirstIndex(log: seq<Item>, id: RequestId): (i: nat)
    ensures i <= |log|
    ensures forall j :: 0 <= j < i ==> IdOf(log[j].command) != id
    ensures i < |log| ==> IdOf(log[i].command) == id
  {
    if log == [] then 0
    else if IdOf(log[0].command) == id then 0
    else FirstIndex(log[1..], id) + 1
  }

  predicate IsFirst(log: seq<Item>, i: nat)
    requires i < |log|
  {
    FirstIndex(log, IdOf(log[i].command)) == i
  }

  /** The values after the first occurrence of every request, in log order, and no repetition. */
  function Fold(log: seq<Item>): map<string, Value> {
    if log == [] then map[]
    else
      var n := |log| - 1;
      if IsFirst(log, n) then ApplyOperation(Fold(log[..n]), log[n].command.operation).values
      else Fold(log[..n])
  }

  /** What the first occurrence of entry `i`'s request answered. */
  function Answer(log: seq<Item>, i: nat): KvResult
    requires i < |log|
  {
    var first := FirstIndex(log, IdOf(log[i].command));
    ApplyOperation(Fold(log[..first]), log[i].command.operation).result
  }

  /** No request identifier is reused for another command. */
  ghost predicate NoReuse(log: seq<Item>) {
    forall i, j :: 0 <= i < j < |log| && IdOf(log[i].command) == IdOf(log[j].command) ==>
      log[i].command == log[j].command
  }

  /** The tables are exactly what the log says: values, one row per request, one row per position. */
  ghost predicate Materialized(t: Tables, log: seq<Item>) {
    && t.items == Fold(log)
    && t.progress == (if log == [] then -1 else log[|log| - 1].position)
    && (forall id :: id in t.requests <==> FirstIndex(log, id) < |log|)
    && (forall id :: id in t.requests ==> RequestRowFits(t.requests[id], log, id))
    && (forall p :: p in t.applied <==> AppliedAt(log, p))
    && (forall i :: 0 <= i < |log| ==> AppliedRowFits(t, log, i))
  }

  ghost predicate RequestRowFits(row: RequestRow, log: seq<Item>, id: RequestId) {
    var first := FirstIndex(log, id);
    first < |log| && row == RequestRow(log[first].command, Answer(log, first), log[first].position)
  }

  ghost predicate AppliedAt(log: seq<Item>, p: int) {
    exists i :: 0 <= i < |log| && log[i].position == p
  }

  ghost predicate AppliedRowFits(t: Tables, log: seq<Item>, i: nat)
    requires i < |log|
  {
    log[i].position in t.applied && t.applied[log[i].position] == AppliedRow(log[i].command, Answer(log, i))
  }

  // ---- Longer logs ------------------------------------------------------------------------------

  lemma {:induction false} FirstIndexLonger(log: seq<Item>, item: Item, id: RequestId)
    ensures FirstIndex(log + [item], id) ==
      if FirstIndex(log, id) < |log| then FirstIndex(log, id)
      else if IdOf(item.command) == id then |log| else |log| + 1
  {
    var longer := log + [item];
    var i, j := FirstIndex(longer, id), FirstIndex(log, id);
    assert forall k :: 0 <= k < |log| ==> longer[k] == log[k];
    assert longer[|log|] == item;
    assert i < |log| ==> IdOf(log[i].command) == id;
  }

  lemma FoldLonger(log: seq<Item>, item: Item)
    ensures Fold(log + [item]) ==
      if FirstIndex(log, IdOf(item.command)) < |log| then Fold(log)
      else ApplyOperation(Fold(log), item.command.operation).values
  {
    assert (log + [item])[..|log|] == log;
    FirstIndexLonger(log, item, IdOf(item.command));
  }

  lemma AnswerLonger(log: seq<Item>, item: Item, i: nat)
    requires i < |log|
    ensures Answer(log + [item], i) == Answer(log, i)
  {
    hide Fold;
    var id := IdOf(log[i].command);
    FirstIndexLonger(log, item, id);
    var first := FirstIndex(log, id);
    assert first <= i;
    assert (log + [item])[..first] == log[..first];
  }

  lemma AnswerLast(log: seq<Item>, item: Item)
    ensures var first := FirstIndex(log, IdOf(item.command));
      && first < |log| && log[first].command == item.command ==>
           Answer(log + [item], |log|) == Answer(log, first)
    ensures FirstIndex(log, IdOf(item.command)) == |log| ==>
      Answer(log + [item], |log|) == ApplyOperation(Fold(log), item.command.operation).result
  {
    hide Fold;
    var id := IdOf(item.command);
    FirstIndexLonger(log, item, id);
    var first := FirstIndex(log, id);
    if first < |log| {
      assert (log + [item])[..first] == log[..first];
      FirstIndexLonger(log, item, IdOf(log[first].command));
    } else {
      assert (log + [item])[..|log|] == log;
    }
  }

  lemma RowsLonger(log: seq<Item>, item: Item, row: RequestRow, id: RequestId)
    requires RequestRowFits(row, log, id)
    ensures RequestRowFits(row, log + [item], id)
  {
    hide Fold, Answer;
    FirstIndexLonger(log, item, id);
    AnswerLonger(log, item, FirstIndex(log, id));
  }

  lemma AppliedLonger(log: seq<Item>, item: Item, p: int)
    ensures AppliedAt(log + [item], p) <==> AppliedAt(log, p) || p == item.position
  {
    var longer := log + [item];
    if AppliedAt(log, p) {
      var i :| 0 <= i < |log| && log[i].position == p;
      assert longer[i].position == p;
    }
    if p == item.position {
      assert longer[|log|].position == p;
    }
  }

  /** The next entry goes through exactly when its request is new or repeats the same command. */
  ghost predicate Agrees(log: seq<Item>, command: Envelope) {
    var first := FirstIndex(log, IdOf(command));
    first < |log| ==> log[first].command == command
  }

  /** Applying the next entry of the log brings the tables to exactly the longer log, or refuses a reuse. */
  lemma ApplyMaterializes(t: Tables, log: seq<Item>, item: Item)
    requires Materialized(t, log) && Rising(log + [item])
    ensures var (u, outcome) := Apply(t, item.position, item.command);
      && (Agrees(log, item.command) ==> Materialized(u, log + [item]) && outcome == Done(Answer(log + [item], |log|)))
      && (!Agrees(log, item.command) ==> u == t && outcome == RequestConflict)
  {
    hide Fold, Answer;
    var longer := log + [item];
    var id := IdOf(item.command);
    var (u, outcome) := Apply(t, item.position, item.command);
    if log != [] {
      assert longer[|log| - 1].position < longer[|log|].position;
    }
    assert t.progress < item.position;
    if Agrees(log, item.command) {
      FoldLonger(log, item);
      AnswerLast(log, item);
      NewRequests(t, log, item);
      NewRows(t, log, item);
    }
  }

  lemma NewRequests(t: Tables, log: seq<Item>, item: Item)
    requires Materialized(t, log) && Rising(log + [item]) && Agrees(log, item.command)
    requires t.progress < item.position
    ensures var (u, outcome) := Apply(t, item.position, item.command);
      && (forall id :: id in u.requests <==> FirstIndex(log + [item], id) < |log + [item]|)
      && (forall id :: id in u.requests ==> RequestRowFits(u.requests[id], log + [item], id))
  {
    hide Fold, Answer, FirstIndex, Rising;
    var (u, outcome) := Apply(t, item.position, item.command);
    var own := IdOf(item.command);
    AnswerLast(log, item);
    forall id
      ensures id in u.requests <==> FirstIndex(log + [item], id) < |log + [item]|
      ensures id in u.requests ==> RequestRowFits(u.requests[id], log + [item], id)
    {
      FirstIndexLonger(log, item, id);
      if id in t.requests {
        RowsLonger(log, item, t.requests[id], id);
      } else if id == own {
        assert (log + [item])[|log|] == item;
      }
    }
  }

  lemma NewRows(t: Tables, log: seq<Item>, item: Item)
    requires Materialized(t, log) && Rising(log + [item]) && Agrees(log, item.command)
    requires t.progress < item.position
    ensures var (u, outcome) := Apply(t, item.position, item.command);
      && (forall p :: p in u.applied <==> AppliedAt(log + [item], p))
      && (forall i :: 0 <= i < |log| + 1 ==> AppliedRowFits(u, log + [item], i))
      && outcome == Done(Answer(log + [item], |log|))
  {
    hide Fold, Answer;
    var longer := log + [item];
    var (u, outcome) := Apply(t, item.position, item.command);
    AnswerLast(log, item);
    assert IdOf(item.command) in t.requests ==> RequestRowFits(t.requests[IdOf(item.command)], log, IdOf(item.command));
    forall p
      ensures p in u.applied <==> AppliedAt(longer, p)
    {
      AppliedLonger(log, item, p);
    }
    forall i | 0 <= i < |longer|
      ensures AppliedRowFits(u, longer, i)
    {
      if i < |log| {
        assert AppliedRowFits(t, log, i);
        AnswerLonger(log, item, i);
        assert longer[i] == log[i];
        assert longer[i].position < longer[|log|].position;
      }
    }
  }

  // ---- Replaying a whole log ----------------------------------------------------------------------

  /** Applies a log in order; a conflict stops it. */
  function Replay(t: Tables, log: seq<Item>): Option<Tables> {
    if log == [] then Some(t)
    else
      match Replay(t, log[..|log| - 1])
      case None => None
      case Some(u) =>
        var (v, outcome) := Apply(u, log[|log| - 1].position, log[|log| - 1].command);
        if outcome.Done? then Some(v) else None
  }

  lemma PristineMaterialized()
    ensures Materialized(PRISTINE, [])
  {
  }

  /**
   Exactly-once replay: a log goes through exactly when no request identifier is reused for another
   command, and then the tables hold what the fold over first occurrences says, with every repetition
   answered as its first occurrence was.
   */
  lemma {:induction false} ExactlyOnce(log: seq<Item>)
    requires Rising(log)
    ensures Replay(PRISTINE, log).Some? <==> NoReuse(log)
    ensures Replay(PRISTINE, log).Some? ==> Materialized(Replay(PRISTINE, log).value, log)
  {
    hide Materialized, Apply, Fold, Answer, NoReuse, Agrees, Rising;
    if log == [] {
      PristineMaterialized();
      NothingReused();
    } else {
      var shorter, item := log[..|log| - 1], log[|log| - 1];
      assert log == shorter + [item];
      RisingPrefix(shorter, [item]);
      ExactlyOnce(shorter);
      ReuseLonger(shorter, item);
      if Replay(PRISTINE, shorter).Some? {
        ApplyMaterializes(Replay(PRISTINE, shorter).value, shorter, item);
      }
    }
  }

  lemma NothingReused()
    ensures NoReuse([])
  {
  }

  lemma RisingPrefix(log: seq<Item>, more: seq<Item>)
    requires Rising(log + more)
    ensures Rising(log)
  {
    forall i, j | 0 <= i < j < |log|
      ensures log[i].position < log[j].position
    {
      assert (log + more)[i] == log[i] && (log + more)[j] == log[j];
    }
  }

  lemma ReuseLonger(log: seq<Item>, item: Item)
    ensures NoReuse(log + [item]) <==> NoReuse(log) && Agrees(log, item.command)
  {
    var longer := log + [item];
    var id := IdOf(item.command);
    var first := FirstIndex(log, id);
    if NoReuse(longer) {
      assert forall i :: 0 <= i < |log| ==> longer[i] == log[i];
      if first < |log| {
        assert longer[first].command == longer[|log|].command;
      }
    }
    if NoReuse(log) && Agrees(log, item.command) {
      forall i, j | 0 <= i < j < |longer| && IdOf(longer[i].command) == IdOf(longer[j].command)
        ensures longer[i].command == longer[j].command
      {
        if j < |log| {
          assert longer[i] == log[i] && longer[j] == log[j];
        } else {
          assert longer[i] == log[i] && first <= i;
          assert first < i ==> log[first].command == log[i].command;
        }
      }
    }
  }

  /** The log determines the tables. */
  lemma MaterializedUnique(t: Tables, u: Tables, log: seq<Item>)
    requires Materialized(t, log) && Materialized(u, log)
    ensures t == u
  {
    assert t.requests.Keys == u.requests.Keys by {
      forall id
        ensures id in t.requests <==> id in u.requests
      {
      }
    }
    forall id | id in t.requests
      ensures t.requests[id] == u.requests[id]
    {
      assert RequestRowFits(t.requests[id], log, id) && RequestRowFits(u.requests[id], log, id);
    }
    assert t.applied.Keys == u.applied.Keys by {
      forall p
        ensures p in t.applied <==> p in u.applied
      {
      }
    }
    forall p | p in t.applied
      ensures t.applied[p] == u.applied[p]
    {
      assert AppliedAt(log, p);
      var i :| 0 <= i < |log| && log[i].position == p;
      assert AppliedRowFits(t, log, i) && AppliedRowFits(u, log, i);
    }
  }

  /** A repetition, and a second replay of the same entry, get the first occurrence's answer and change no value. */
  lemma RepetitionAnswers(log: seq<Item>, i: nat, j: nat)
    requires Rising(log) && NoReuse(log) && i < j < |log| && IdOf(log[i].command) == IdOf(log[j].command)
    ensures Answer(log, j) == Answer(log, i)
    ensures Fold(log[..j + 1]) == Fold(log[..j])
  {
    hide Fold;
    var shorter := log[..j];
    assert log[..j + 1] == shorter + [log[j]];
    FoldLonger(shorter, log[j]);
    assert shorter[i] == log[i];
    assert FirstIndex(shorter, IdOf(log[j].command)) <= i;
  }

  lemma OldPositionAnswers(t: Tables, log: seq<Item>, i: nat)
    requires Materialized(t, log) && Rising(log) && i < |log|
    ensures Apply(t, log[i].position, log[i].command) == (t, Done(Answer(log, i)))
  {
    hide Fold, Answer;
    assert AppliedRowFits(t, log, i);
    assert i < |log| - 1 ==> log[i].position < log[|log| - 1].position;
  }

  /** Any other command at or below the progress is a conflict: at a position passed over, or in a used one's place. */
  lemma OldPositionConflicts(t: Tables, log: seq<Item>, position: int, command: Envelope)
    requires Materialized(t, log) && Rising(log) && position <= t.progress
    requires forall i :: 0 <= i < |log| && log[i].position == position ==> log[i].command != command
    ensures Apply(t, position, command) == (t, RequestConflict)
  {
    hide Fold, Answer;
    if position in t.applied {
      var i :| 0 <= i < |log| && log[i].position == position;
      assert AppliedRowFits(t, log, i);
    }
  }

  lemma {:induction false} ReplayAppend(t: Tables, log: seq<Item>, more: seq<Item>)
    ensures Replay(t, log + more) ==
      match Replay(t, log) case None => None case Some(u) => Replay(u, more)
  {
    hide Apply;
    if more == [] {
      assert log + more == log;
    } else {
      var shorter := more[..|more| - 1];
      ReplayAppend(t, log, shorter);
      assert (log + more)[..|log + more| - 1] == log + shorter;
    }
  }
}
