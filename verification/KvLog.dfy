/**
 The log as replicas of the key-value store share it, and what materializing a part of it means
 (kv/materializer.py).
 */
module KvLog {
  import opened Wrappers
  import opened KvMachine
  import opened KvReplay
  import opened KvSnapshots

  type Entries = map<nat, Option<Envelope>>

  /**
   The log as its readers share it: what stands below `settled` is final, a payload that is no command
   being None; the entries at `discarded` may have been trimmed away.
   */
  datatype Flat = Flat(entries: Entries, settled: nat, discarded: set<nat>)
  {
    ghost predicate Valid() {
      forall p :: p in entries ==> p < settled
    }
  }

  /** The settled part is final; the log grows above it, and trims advance. */
  ghost predicate FlatGrows(a: Flat, b: Flat) {
    && a.settled <= b.settled && a.discarded <= b.discarded
    && (forall p :: p in a.entries ==> p in b.entries && b.entries[p] == a.entries[p])
    && (forall p :: p in b.entries && p < a.settled ==> p in a.entries)
  }

  /** Nothing settled in [from, end) was passed over, unless discarded by then. */
  ghost predicate Passed(a: Flat, b: Flat, from: int, end: int) {
    forall p :: p in a.entries && from <= p < end ==> p in b.discarded
  }

  /** The commands at positions in (from, end], in order. */
  function Between(entries: Entries, from: int, end: int): seq<Item>
    decreases end - from
  {
    if end <= from then []
    else
      Between(entries, from, end - 1)
      + if 0 <= end && end in entries && entries[end].Some? then [Item(end, entries[end].value)] else []
  }

  /** No entry lies strictly between the two positions. */
  ghost predicate Gap(entries: Entries, from: int, end: int) {
    forall p :: p in entries ==> !(from < p < end)
  }

  /** Every entry in (from, end] holds a command. */
  ghost predicate Readable(entries: Entries, from: int, end: int) {
    forall p :: p in entries && from < p <= end ==> entries[p].Some?
  }

  lemma {:induction false} GapIsEmpty(entries: Entries, from: int, mid: int, end: int)
    requires from <= mid <= end && Gap(entries, mid, end + 1)
    ensures Between(entries, from, end) == Between(entries, from, mid)
    decreases end - mid
  {
    if mid < end {
      GapIsEmpty(entries, from, mid, end - 1);
    }
  }

  /** Skipping to the next entry adds that one entry. */
  lemma NextBetween(entries: Entries, from: int, mid: int, next: nat)
    requires from <= mid < next && Gap(entries, mid, next) && next in entries && entries[next].Some?
    ensures Between(entries, from, next) == Between(entries, from, mid) + [Item(next, entries[next].value)]
  {
    GapIsEmpty(entries, from, mid, next - 1);
  }

  lemma {:induction false} BetweenJoins(entries: Entries, from: int, mid: int, end: int)
    requires from <= mid <= end
    ensures Between(entries, from, end) == Between(entries, from, mid) + Between(entries, mid, end)
    decreases end - mid
  {
    if mid < end {
      BetweenJoins(entries, from, mid, end - 1);
    }
  }

  lemma {:induction false} BetweenRises(entries: Entries, from: int, end: int)
    ensures Rising(Between(entries, from, end))
    ensures forall item :: item in Between(entries, from, end) ==> from < item.position <= end
    decreases end - from
  {
    if from < end {
      BetweenRises(entries, from, end - 1);
    }
  }

  /** Below the settled boundary a grown log lists the same commands. */
  lemma {:induction false} BetweenSettled(a: Flat, b: Flat, from: int, end: int)
    requires FlatGrows(a, b) && end < a.settled
    ensures Between(a.entries, from, end) == Between(b.entries, from, end)
    decreases end - from
  {
    if from < end {
      BetweenSettled(a, b, from, end - 1);
    }
  }

  /** The items are settled commands of the log. */
  ghost predicate FromLog(f: Flat, items: seq<Item>) {
    forall item :: item in items && item.position < f.settled ==>
      item.position in f.entries && f.entries[item.position] == Some(item.command)
  }

  ghost predicate Lists(items: seq<Item>, p: int) {
    exists item :: item in items && item.position == p
  }

  /** Every settled entry of (from, upTo] is among the items, unless discarded by then. */
  ghost predicate MissesOnlyDiscarded(f: Flat, g: Flat, items: seq<Item>, from: int, upTo: int) {
    forall p :: p in f.entries && from < p <= upTo ==> Lists(items, p) || p in g.discarded
  }

  /** Nothing in (from, target] has been discarded, and `target` lies in the settled part. */
  ghost predicate Undiscarded(f: Flat, g: Flat, from: int, target: int) {
    target < f.settled && forall p :: p in g.discarded ==> !(from < p <= target)
  }

  lemma SettledCommands(f: Flat, items: seq<Item>, from: int, upTo: int)
    requires FromLog(f, items) && ItemsWithin(items, from, upTo) && upTo < f.settled
    ensures Commands(f.entries, items)
  {
  }

  /** The entry that stopped the materializer: the next one it was shown, with this payload. */
  ghost predicate Stopped(f: Flat, g: Flat, progress: int, position: nat, target: int, payload: Option<Envelope>) {
    && progress < position <= target && Passed(f, g, progress + 1, position)
    && (position < f.settled ==> position in f.entries && f.entries[position] == payload)
  }

  /**
   The account of what was applied between two moments: settled commands of the log, all there are up to
   the progress except what had been discarded, and exactly the log's own if nothing needed had been.
   */
  ghost predicate Account(f: Flat, g: Flat, items: seq<Item>, from: int, progress: int, target: int) {
    && FromLog(f, items) && MissesOnlyDiscarded(f, g, items, from, progress)
    && (Undiscarded(f, g, from, target) ==>
          items == Between(f.entries, from, progress) && Readable(f.entries, from, progress))
  }

  lemma NothingApplied(f: Flat, progress: int, target: int)
    ensures ItemsWithin([], progress, progress) && Account(f, f, [], progress, progress, target) && FlatGrows(f, f)
  {
  }

  /** A read that began at `f` and ended at `g` leaves what was established since `f0` standing. */
  lemma ReadOn(f0: Flat, f: Flat, g: Flat, items: seq<Item>, current: int, progress: int, target: int)
    requires FlatGrows(f0, f) && FlatGrows(f, g)
    ensures FlatGrows(f0, g)
    ensures Account(f0, f, items, current, progress, target) ==> Account(f0, g, items, current, progress, target)
  {
    hide FromLog, Readable;
  }

  lemma StoppedSince(f0: Flat, f: Flat, g: Flat, progress: int, position: nat, target: int, payload: Option<Envelope>)
    requires FlatGrows(f0, f) && FlatGrows(f, g) && f0.settled == f.settled
    ensures Stopped(f, g, progress, position, target, payload) ==> Stopped(f0, g, progress, position, target, payload)
    ensures Passed(f, g, progress + 1, target + 1) ==> Passed(f0, g, progress + 1, target + 1)
  {
  }

  /** Applying the entry read next keeps the account of what was applied. */
  lemma ApplyOn(f0: Flat, g: Flat, items: seq<Item>, current: int, progress: int, target: int, item: Item)
    requires current <= progress && Account(f0, g, items, current, progress, target)
    requires Stopped(f0, g, progress, item.position, target, Some(item.command))
    ensures Account(f0, g, items + [item], current, item.position, target)
  {
    var more := items + [item];
    forall p | p in f0.entries && current < p <= item.position
      ensures Lists(more, p) || p in g.discarded
    {
      if p <= progress && Lists(items, p) {
        var old_ :| old_ in items && old_.position == p;
        assert old_ in more;
      } else if p == item.position {
        assert item in more;
      }
    }
    if Undiscarded(f0, g, current, target) {
      NextBetween(f0.entries, current, progress, item.position);
    }
  }

  lemma ItemsOn(items: seq<Item>, current: int, progress: int, item: Item)
    requires current <= progress < item.position && ItemsWithin(items, current, progress)
    ensures ItemsWithin(items + [item], current, item.position)
  {
  }

  /** What an account means for the fold of the log. */
  lemma AccountFolds(f: Flat, g: Flat, t: Tables, items: seq<Item>, u: Tables, from: int, target: int)
    requires -1 <= from <= target < f.settled && Account(f, g, items, from, target, target)
    requires ItemsWithin(items, from, target) && Replay(t, items) == Some(u)
    requires Materialized(t, Between(f.entries, -1, from))
    ensures Materialized(u, Between(f.entries, -1, target)) <==> AllListed(f.entries, items, from, target)
    ensures Undiscarded(f, g, from, target) ==> AllListed(f.entries, items, from, target)
  {
    hide Materialized, Replay;
    SettledCommands(f, items, from, target);
    FoldExactly(f.entries, t, items, u, from, target);
  }

  /**
   A store that holds the fold of the log up to its progress, once materialized through `target`, holds
   the fold of the log up to `target`, and the row at `target` answers as the first occurrence of its
   request did.
   */
  lemma MaterializingExtendsFold(entries: Entries, t: Tables, u: Tables, from: int, target: nat)
    requires -1 <= from < target && target in entries && entries[target].Some?
    requires Materialized(t, Between(entries, -1, from))
    requires Replay(t, Between(entries, from, target)) == Some(u)
    ensures Materialized(u, Between(entries, -1, target)) && AnswersAsFirst(entries, u, target)
  {
    hide Fold, Answer, Materialized, AnswersAsFirst;
    BetweenJoins(entries, -1, from, target);
    BetweenRises(entries, -1, target);
    ReplayMaterializes(t, Between(entries, -1, from), Between(entries, from, target));
    FoldAnswers(entries, u, target);
  }

  /** The row at `target` holds what the first occurrence of that entry's request answered. */
  ghost predicate AnswersAsFirst(entries: Entries, t: Tables, target: nat)
    requires target in entries && entries[target].Some?
  {
    var log := Between(entries, -1, target);
    && log != [] && log[|log| - 1] == Item(target, entries[target].value)
    && target in t.applied && t.applied[target].result == Answer(log, |log| - 1)
  }

  lemma FoldAnswers(entries: Entries, t: Tables, target: nat)
    requires target in entries && entries[target].Some? && Materialized(t, Between(entries, -1, target))
    ensures AnswersAsFirst(entries, t, target)
  {
    hide Fold, Answer;
    var log := Between(entries, -1, target);
    assert AppliedRowFits(t, log, |log| - 1);
  }

  /**
   Replicas agree: two stores that hold the fold of the log up to one settled position, each as the log
   stood when it read, hold the same values, requests, answers and progress.
   */
  lemma ReplicasAgree(f: Flat, g: Flat, t: Tables, u: Tables, position: int)
    requires FlatGrows(f, g) && position < f.settled
    requires Materialized(t, Between(f.entries, -1, position))
    requires Materialized(u, Between(g.entries, -1, position))
    ensures t == u
  {
    hide Materialized;
    BetweenSettled(f, g, -1, position);
    MaterializedUnique(t, u, Between(f.entries, -1, position));
  }

  // ---- Trims that outrun a replica -----------------------------------------------------------------

  /** The items rise through (from, upTo]. */
  ghost predicate ItemsWithin(items: seq<Item>, from: int, upTo: int) {
    Rising(items) && forall item :: item in items ==> from < item.position <= upTo
  }

  /** Every command of (from, upTo] is among the items. */
  ghost predicate AllListed(entries: Entries, items: seq<Item>, from: int, upTo: int) {
    forall p :: p in entries && from < p <= upTo && entries[p].Some? ==> Lists(items, p)
  }

  /** The items are commands of the log. */
  ghost predicate Commands(entries: Entries, items: seq<Item>) {
    forall item :: item in items ==> item.position in entries && entries[item.position] == Some(item.command)
  }

  /** Replaying items leaves rows at their positions and at the old ones only. */
  lemma {:induction false} RowsOfReplay(t: Tables, items: seq<Item>, u: Tables, p: int)
    requires Replay(t, items) == Some(u) && p in u.applied
    ensures p in t.applied || Lists(items, p)
  {
    hide ApplyOperation;
    if items != [] && p !in t.applied {
      var shorter, last := items[..|items| - 1], items[|items| - 1];
      var v := Replay(t, shorter).value;
      if p in v.applied {
        RowsOfReplay(t, shorter, v, p);
        var item :| item in shorter && item.position == p;
        assert item in items;
      } else {
        assert last in items && last.position == p;
      }
    }
  }

  /** Replaying rising items leaves each one's row. */
  lemma {:induction false} ItemsLeaveRows(t: Tables, items: seq<Item>, u: Tables, from: int, upTo: int, item: Item)
    requires Replay(t, items) == Some(u) && t.progress <= from <= upTo && ItemsWithin(items, from, upTo)
    ensures u.progress <= upTo
    ensures item in items ==> item.position in u.applied && u.applied[item.position].command == item.command
  {
    hide ApplyOperation;
    if items != [] {
      var shorter, last := items[..|items| - 1], items[|items| - 1];
      assert items == shorter + [last] && last in items;
      var v := Replay(t, shorter).value;
      assert ItemsWithin(shorter, from, last.position - 1) by { ShorterWithin(items, from, upTo); }
      ItemsLeaveRows(t, shorter, v, from, last.position - 1, item);
      assert item in shorter ==> item.position < last.position;
    }
  }

  lemma ShorterWithin(items: seq<Item>, from: int, upTo: int)
    requires ItemsWithin(items, from, upTo) && items != []
    ensures ItemsWithin(items[..|items| - 1], from, items[|items| - 1].position - 1)
  {
    var shorter, last := items[..|items| - 1], items[|items| - 1];
    forall item | item in shorter
      ensures from < item.position <= last.position - 1
    {
      var i :| 0 <= i < |shorter| && shorter[i] == item;
      assert items[i] in items && items[i].position < items[|items| - 1].position;
    }
  }

  /** A command that was passed over is missing from the tables for good, so they are no fold of the log. */
  lemma MissedDiverges(entries: Entries, t: Tables, items: seq<Item>, u: Tables, from: int, target: int, p: nat)
    requires Materialized(t, Between(entries, -1, from)) && Replay(t, items) == Some(u)
    requires from < p <= target && p in entries && entries[p].Some? && !Lists(items, p)
    ensures !Materialized(u, Between(entries, -1, target))
  {
    hide Fold, Answer, Replay;
    CommandInBetween(entries, -1, target, p);
    var log := Between(entries, -1, target);
    assert AppliedAt(log, p);
    NotYetApplied(entries, from, p);
    if p in u.applied {
      RowsOfReplay(t, items, u, p);
    }
  }

  lemma NotYetApplied(entries: Entries, from: int, p: nat)
    requires from < p
    ensures !AppliedAt(Between(entries, -1, from), p)
  {
    BetweenRises(entries, -1, from);
    var log := Between(entries, -1, from);
    forall i | 0 <= i < |log|
      ensures log[i].position != p
    {
      assert log[i] in log;
    }
  }

  lemma {:induction false} CommandInBetween(entries: Entries, from: int, end: int, p: nat)
    requires from < p <= end && p in entries && entries[p].Some?
    ensures exists i :: 0 <= i < |Between(entries, from, end)| && Between(entries, from, end)[i].position == p
    decreases end - from
  {
    var log := Between(entries, from, end);
    if p == end {
      assert log[|log| - 1].position == p;
    } else {
      CommandInBetween(entries, from, end - 1, p);
      var shorter := Between(entries, from, end - 1);
      var i :| 0 <= i < |shorter| && shorter[i].position == p;
      assert log[i] == shorter[i];
    }
  }

  /** Rising commands of a range that miss none are the range. */
  lemma {:induction false} CompleteIsBetween(entries: Entries, items: seq<Item>, from: int, end: int)
    requires ItemsWithin(items, from, end) && Commands(entries, items) && AllListed(entries, items, from, end)
    ensures items == Between(entries, from, end)
    decreases end - from
  {
    hide ItemsWithin, Commands, AllListed;
    if end <= from {
      NothingWithin(items, from, end);
    } else if 0 <= end && end in entries && entries[end].Some? {
      var last := LastListed(entries, items, from, end);
      var shorter := items[..|items| - 1];
      assert items == shorter + [last];
      ShorterComplete(entries, items, from, end);
      CompleteIsBetween(entries, shorter, from, end - 1);
    } else {
      NoneAtEnd(entries, items, from, end);
      CompleteIsBetween(entries, items, from, end - 1);
    }
  }

  function FirstOf(items: seq<Item>): (item: Item)
    requires items != []
    ensures item in items
  {
    items[0]
  }

  lemma NothingWithin(items: seq<Item>, from: int, end: int)
    requires ItemsWithin(items, from, end) && end <= from
    ensures items == []
  {
    assert items != [] ==> FirstOf(items) in items;
  }

  lemma NoneAtEnd(entries: Entries, items: seq<Item>, from: int, end: int)
    requires ItemsWithin(items, from, end) && Commands(entries, items) && AllListed(entries, items, from, end)
    requires !(0 <= end && end in entries && entries[end].Some?)
    ensures ItemsWithin(items, from, end - 1) && AllListed(entries, items, from, end - 1)
  {
  }

  lemma LastListed(entries: Entries, items: seq<Item>, from: int, end: nat) returns (last: Item)
    requires ItemsWithin(items, from, end) && Commands(entries, items) && AllListed(entries, items, from, end)
    requires from < end && end in entries && entries[end].Some?
    ensures items != [] && items[|items| - 1] == last == Item(end, entries[end].value)
  {
    last :| last in items && last.position == end;
    LastOfRising(items, last, end);
  }

  lemma LastOfRising(items: seq<Item>, last: Item, end: int)
    requires Rising(items) && last in items && last.position == end
    requires forall item :: item in items ==> item.position <= end
    ensures items != [] && items[|items| - 1] == last
  {
    var i :| 0 <= i < |items| && items[i] == last;
    assert items[|items| - 1] in items;
    assert i < |items| - 1 ==> items[i].position < items[|items| - 1].position;
  }

  lemma ShorterComplete(entries: Entries, items: seq<Item>, from: int, end: int)
    requires ItemsWithin(items, from, end) && Commands(entries, items) && AllListed(entries, items, from, end)
    requires items != [] && items[|items| - 1].position == end
    ensures var shorter := items[..|items| - 1];
      && ItemsWithin(shorter, from, end - 1) && Commands(entries, shorter)
      && AllListed(entries, shorter, from, end - 1)
  {
    var shorter := items[..|items| - 1];
    forall item | item in shorter
      ensures item in items && item.position <= end - 1
    {
      var i :| 0 <= i < |shorter| && shorter[i] == item;
      assert items[i].position < items[|items| - 1].position;
    }
    forall p | p in entries && from < p <= end - 1 && entries[p].Some?
      ensures Lists(shorter, p)
    {
      var item :| item in items && item.position == p;
      var i :| 0 <= i < |items| && items[i] == item;
      assert shorter[i] == item;
    }
  }

  /**
   Replaying commands of (from, target] on a store that held the fold of the log gives the fold of the
   longer log exactly when none of them was passed over.
   */
  lemma FoldExactly(entries: Entries, t: Tables, items: seq<Item>, u: Tables, from: int, target: int)
    requires -1 <= from <= target && Materialized(t, Between(entries, -1, from)) && Replay(t, items) == Some(u)
    requires ItemsWithin(items, from, target) && Commands(entries, items)
    ensures Materialized(u, Between(entries, -1, target)) <==> AllListed(entries, items, from, target)
  {
    hide Materialized, Replay, ItemsWithin, Commands;
    if AllListed(entries, items, from, target) {
      CompleteIsBetween(entries, items, from, target);
      BetweenJoins(entries, -1, from, target);
      BetweenRises(entries, -1, target);
      ReplayMaterializes(t, Between(entries, -1, from), items);
    } else {
      var p :| p in entries && from < p <= target && entries[p].Some? && !Lists(items, p);
      MissedDiverges(entries, t, items, u, from, target, p);
    }
  }

  /** A log of two commands, the first of which has been discarded. */
  const GAP := Flat(
    map[0 := Some(Envelope("c", "1", Put("k", Number(1)))), 1 := Some(Envelope("c", "2", Put("j", Number(2))))],
    2,
    {0})

  /** A fresh replica that reads it is shown the second command only, applies it, and has lost the first. */
  lemma GapIsNotNoticed() returns (items: seq<Item>, u: Tables)
    ensures GAP.Valid() && Passed(GAP, GAP, 0, 1) && items == [Item(1, GAP.entries[1].value)]
    ensures FromLog(GAP, items) && MissesOnlyDiscarded(GAP, GAP, items, -1, 1)
    ensures Replay(PRISTINE, items) == Some(u) && u.progress == 1
    ensures !Materialized(u, Between(GAP.entries, -1, 1))
  {
    items := [Item(1, GAP.entries[1].value)];
    assert items[..0] == [];
    assert Replay(PRISTINE, []) == Some(PRISTINE);
    u := Replay(PRISTINE, items).value;
    assert items[0] in items;
    assert Between(GAP.entries, -1, -1) == [];
    PristineMaterialized();
    MissedDiverges(GAP.entries, PRISTINE, items, u, -1, 1, 0);
  }
}
