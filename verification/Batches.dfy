/** The two set-valued UPDATE statements of recoverExpired, as runs of row operations. */
module Batches {
  import opened Basics
  import opened Tasks
  import opened Dependencies
  import opened Transactions

  /** The table after an UPDATE of the listed rows. */
  function UpdateAll(tasks: map<Id, Row>, ids: seq<Id>, f: Row -> Row): map<Id, Row> {
    map id | id in tasks :: if id in ids then f(tasks[id]) else tasks[id]
  }

  function FailRow(row: Row): Row { row.(status := Failed) }

  /** The events inserted beside the UPDATE, one per row. */
  function RecoveryEvents(tasks: map<Id, Row>, ids: seq<Id>): seq<Event> {
    seq(|ids|, i requires 0 <= i < |ids| =>
      Event(ids[i], if ids[i] in tasks then RecoveryAction(tasks[ids[i]]) else LeaseExpired, ""))
  }

  function PropagationEvents(ids: seq<Id>): seq<Event> {
    seq(|ids|, i requires 0 <= i < |ids| => Event(ids[i], DependencyFailed, ""))
  }

  lemma UpdateSnoc(tasks: map<Id, Row>, ids: seq<Id>, id: Id, f: Row -> Row)
    requires id in tasks && id !in ids
    ensures UpdateAll(tasks, ids + [id], f) == UpdateAll(tasks, ids, f)[id := f(tasks[id])]
  {
  }

  lemma DistinctSnoc(ids: seq<Id>)
    requires Distinct(ids) && ids != []
    ensures Distinct(ids[..|ids| - 1]) && ids[|ids| - 1] !in ids[..|ids| - 1]
    ensures ids == ids[..|ids| - 1] + [ids[|ids| - 1]]
  {
  }

  predicate AllExpired(tasks: map<Id, Row>, ids: seq<Id>, now: Time) {
    forall id :: id in ids ==> id in tasks && Expired(tasks[id], now)
  }

  function AfterRecovery(s: Db, ids: seq<Id>): Db
    requires forall id :: id in ids ==> id in s.tasks
  {
    Db(UpdateAll(s.tasks, ids, Recovered), s.events + RecoveryEvents(s.tasks, ids), s.issued)
  }

  lemma ExpireNext(s: Db, ids: seq<Id>, id: Id, now: Time)
    requires id !in ids && AllExpired(s.tasks, ids + [id], now) && AllExpired(s.tasks, ids, now)
    ensures Guard(AfterRecovery(s, ids), Expire(id, now))
    ensures Apply(AfterRecovery(s, ids), Expire(id, now)) == AfterRecovery(s, ids + [id])
  {
    assert id in ids + [id];
    UpdateSnoc(s.tasks, ids, id, Recovered);
    assert RecoveryEvents(s.tasks, ids + [id])
        == RecoveryEvents(s.tasks, ids) + [Event(id, RecoveryAction(s.tasks[id]), "")];
  }

  lemma {:induction false} ExpireBatch(s: Db, ids: seq<Id>, now: Time)
    requires Distinct(ids) && AllExpired(s.tasks, ids, now)
    ensures Run(s, ExpireOps(ids, now)) && State(s, ExpireOps(ids, now)) == AfterRecovery(s, ids)
    decreases |ids|
  {
    if ids == [] {
      assert UpdateAll(s.tasks, [], Recovered) == s.tasks;
      assert s.events + RecoveryEvents(s.tasks, ids) == s.events;
    } else {
      hide Guard, Apply, AfterRecovery, Run, State;
      var n := |ids| - 1;
      DistinctSnoc(ids);
      ExpireBatch(s, ids[..n], now);
      ExpireNext(s, ids[..n], ids[n], now);
      assert ExpireOps(ids, now) == ExpireOps(ids[..n], now) + [Expire(ids[n], now)];
      Snoc(s, ExpireOps(ids[..n], now), Expire(ids[n], now));
    }
  }

  ghost predicate AllBlocked(s: Db, ids: seq<Id>) {
    forall id :: id in ids ==> Blocked(s, id)
  }

  function AfterPropagation(s: Db, ids: seq<Id>): Db {
    Db(UpdateAll(s.tasks, ids, FailRow), s.events + PropagationEvents(ids), s.issued)
  }

  lemma BlockNext(s: Db, ids: seq<Id>, id: Id)
    requires id !in ids && Blocked(s, id)
    ensures Guard(AfterPropagation(s, ids), Block(id))
    ensures Apply(AfterPropagation(s, ids), Block(id)) == AfterPropagation(s, ids + [id])
  {
    StillBlockedAfter(s, ids, id);
    UpdateSnoc(s.tasks, ids, id, FailRow);
    assert PropagationEvents(ids + [id]) == PropagationEvents(ids) + [Event(id, DependencyFailed, "")];
  }

  lemma {:induction false} BlockBatch(s: Db, ids: seq<Id>)
    requires Distinct(ids) && AllBlocked(s, ids)
    ensures Run(s, BlockOps(ids)) && State(s, BlockOps(ids)) == AfterPropagation(s, ids)
    decreases |ids|
  {
    if ids == [] {
      assert UpdateAll(s.tasks, [], FailRow) == s.tasks;
      assert s.events + PropagationEvents(ids) == s.events;
    } else {
      hide Guard, Apply, AfterPropagation, Run, State, Blocked;
      var n := |ids| - 1;
      DistinctSnoc(ids);
      BlockBatch(s, ids[..n]);
      BlockNext(s, ids[..n], ids[n]);
      assert BlockOps(ids) == BlockOps(ids[..n]) + [Block(ids[n])];
      Snoc(s, BlockOps(ids[..n]), Block(ids[n]));
    }
  }

  /** Failing other rows keeps a blocked row blocked. */
  lemma StillBlockedAfter(s: Db, ids: seq<Id>, id: Id)
    requires Blocked(s, id) && id !in ids
    ensures var t := UpdateAll(s.tasks, ids, FailRow);
      id in t && t[id].status == Pending && SomeParentFailed(t, t[id])
  {
    var t := UpdateAll(s.tasks, ids, FailRow);
    var d :| d in s.tasks[id].request.deps && d in s.tasks && s.tasks[d].status == Failed;
    assert d in t && t[d].status == Failed;
  }
}
