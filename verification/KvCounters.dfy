/**
 Replicated counters: what increments add up to when a log with repetitions is replayed
 (kv/state_machine.py, kv/sqlite_store.py).
 */
module KvCounters {
  import opened Wrappers
  import opened KvMachine
  import opened KvReplay

  /** The request at `i` occurs there first and increments the key. */
  ghost predicate Counts(log: seq<Item>, i: nat, key: string)
    requires i < |log|
  {
    IsFirst(log, i) && log[i].command.operation.key == key && log[i].command.operation.Increment?
  }

  /** The sum of the deltas of the key's increments, each request counted once. */
  ghost function Total(log: seq<Item>, key: string): int {
    if log == [] then 0
    else
      var n := |log| - 1;
      Total(log[..n], key) + if Counts(log, n, key) then log[n].command.operation.delta else 0
  }

  /** Nothing but increments touches the key. */
  ghost predicate OnlyIncremented(log: seq<Item>, key: string) {
    forall i :: 0 <= i < |log| && log[i].command.operation.key == key ==> log[i].command.operation.Increment?
  }

  ghost predicate Touched(log: seq<Item>, key: string) {
    exists i :: 0 <= i < |log| && log[i].command.operation.key == key
  }

  lemma PrefixIncremented(log: seq<Item>, n: nat, key: string)
    requires n <= |log| && OnlyIncremented(log, key)
    ensures OnlyIncremented(log[..n], key)
  {
  }

  lemma TouchedLonger(log: seq<Item>, item: Item, key: string)
    ensures Touched(log + [item], key) <==> Touched(log, key) || item.command.operation.key == key
  {
    var longer := log + [item];
    if Touched(log, key) {
      var i :| 0 <= i < |log| && log[i].command.operation.key == key;
      assert longer[i].command.operation.key == key;
    }
    if item.command.operation.key == key {
      assert longer[|log|].command.operation.key == key;
    }
  }

  /** A repeated request has touched the key before. */
  lemma RepetitionTouched(log: seq<Item>, item: Item)
    requires NoReuse(log + [item]) && FirstIndex(log, IdOf(item.command)) < |log|
    ensures Touched(log, item.command.operation.key)
  {
    var longer, first := log + [item], FirstIndex(log, IdOf(item.command));
    assert longer[first].command == longer[|log|].command;
    assert log[first].command.operation.key == item.command.operation.key;
  }

  /** The key holds the sum, and is absent until its first increment. */
  lemma {:induction false} CounterHolds(log: seq<Item>, key: string)
    requires OnlyIncremented(log, key) && NoReuse(log)
    ensures Lookup(Fold(log), key) == if Touched(log, key) then Some(Number(Total(log, key))) else None
    ensures !Touched(log, key) ==> Total(log, key) == 0
  {
    hide ApplyOperation;
    if log != [] {
      var n := |log| - 1;
      var shorter, item := log[..n], log[n];
      assert log == shorter + [item];
      PrefixIncremented(log, n, key);
      ReuseLonger(shorter, item);
      CounterHolds(shorter, key);
      CounterGrows(shorter, item, key);
    }
  }

  /** One more entry keeps that. */
  lemma CounterGrows(log: seq<Item>, item: Item, key: string)
    requires OnlyIncremented(log + [item], key) && NoReuse(log + [item])
    requires Lookup(Fold(log), key) == if Touched(log, key) then Some(Number(Total(log, key))) else None
    requires !Touched(log, key) ==> Total(log, key) == 0
    ensures Lookup(Fold(log + [item]), key)
         == if Touched(log + [item], key) then Some(Number(Total(log + [item], key))) else None
    ensures !Touched(log + [item], key) ==> Total(log + [item], key) == 0
  {
    hide ApplyOperation, Fold, Total, Touched, NoReuse, FirstIndex;
    assert (log + [item])[|log|] == item;
    TouchedLonger(log, item, key);
    FoldLonger(log, item);
    TotalLonger(log, item, key);
    if FirstIndex(log, IdOf(item.command)) < |log| {
      RepetitionTouched(log, item);
    }
  }

  lemma TotalLonger(log: seq<Item>, item: Item, key: string)
    requires item.command.operation.key == key ==> item.command.operation.Increment?
    ensures Total(log + [item], key) == Total(log, key) +
      if FirstIndex(log, IdOf(item.command)) < |log| || item.command.operation.key != key then 0
      else item.command.operation.delta
  {
    assert (log + [item])[..|log|] == log && (log + [item])[|log|] == item;
    FirstIndexLonger(log, item, IdOf(item.command));
  }

  /** An increment answers with the sum up to its request's first occurrence, however often it is repeated. */
  lemma CounterAnswers(log: seq<Item>, i: nat, key: string)
    requires OnlyIncremented(log, key) && NoReuse(log) && i < |log| && log[i].command.operation.key == key
    ensures Answer(log, i)
         == KvResult(APPLIED, Some(Number(Total(log[..FirstIndex(log, IdOf(log[i].command)) + 1], key))))
  {
    hide ApplyOperation, Fold;
    var first := FirstIndex(log, IdOf(log[i].command));
    assert first <= i;
    assert log[first].command == log[i].command;
    var before, upTo := log[..first], log[..first + 1];
    assert upTo[..first] == before && upTo[first] == log[first];
    PrefixIncremented(log, first, key);
    PrefixReuse(log, first);
    CounterHolds(before, key);
    StillFirst(log, first);
  }

  lemma PrefixReuse(log: seq<Item>, n: nat)
    requires n <= |log| && NoReuse(log)
    ensures NoReuse(log[..n])
  {
  }

  lemma StillFirst(log: seq<Item>, first: nat)
    requires first < |log| && IsFirst(log, first)
    ensures IsFirst(log[..first + 1], first)
  {
    var upTo := log[..first + 1];
    assert forall j :: 0 <= j < first ==> upTo[j] == log[j];
    assert upTo[first] == log[first];
  }

  /**
   A replicated counter: replaying any log in which no identifier is reused, a key touched by increments
   alone ends at the sum of their deltas, each request counted once, and every increment's row answers
   with the sum up to its request's first occurrence.
   */
  lemma ReplicatedCounter(log: seq<Item>, key: string)
    requires Rising(log) && NoReuse(log) && OnlyIncremented(log, key)
    ensures Replay(PRISTINE, log).Some?
    ensures var t := Replay(PRISTINE, log).value;
      && Lookup(t.items, key) == (if Touched(log, key) then Some(Number(Total(log, key))) else None)
      && forall i :: 0 <= i < |log| && log[i].command.operation.key == key ==> AnswersSum(t, log, i, key)
  {
    hide ApplyOperation, Fold, Answer, Total, Touched, Replay;
    ExactlyOnce(log);
    CounterHolds(log, key);
    var t := Replay(PRISTINE, log).value;
    forall i | 0 <= i < |log| && log[i].command.operation.key == key
      ensures AnswersSum(t, log, i, key)
    {
      CounterAnswers(log, i, key);
      assert AppliedRowFits(t, log, i);
    }
  }

  ghost predicate AnswersSum(t: Tables, log: seq<Item>, i: nat, key: string)
    requires i < |log|
  {
    var first := FirstIndex(log, IdOf(log[i].command));
    && log[i].position in t.applied
    && t.applied[log[i].position].result == KvResult(APPLIED, Some(Number(Total(log[..first + 1], key))))
  }
}
