/**
 What the calls of the store do, said column by column (internal/queue/schema.sql,
 internal/queue/store.go:169-405). Nothing here is used to compute anything.
 */
module Columns {
  import opened Basics
  import opened Strings
  import opened Tasks
  import opened TaskLog
  import opened Transactions

  /** Dictionary order: a prefix comes first, otherwise the first difference decides. */
  ghost predicate Dictionary(a: string, b: string) {
    a <= b || exists k :: 0 <= k < |a| && k < |b| && a[..k] == b[..k] && a[k] < b[k]
  }

  lemma {:induction false} LeqIsDictionary(a: string, b: string)
    ensures Leq(a, b) <==> Dictionary(a, b)
  {
    if a == "" || b == "" {
    } else if a[0] != b[0] {
      DifferFirst(a, b);
    } else {
      LeqIsDictionary(a[1..], b[1..]);
      SameFirst(a, b);
    }
  }

  lemma DifferFirst(a: string, b: string)
    requires a != "" && b != "" && a[0] != b[0]
    ensures Dictionary(a, b) <==> a[0] < b[0]
  {
    assert a[..0] == b[..0];
    forall k | 0 < k < |a| && k < |b| ensures a[..k] != b[..k] { assert a[..k][0] != b[..k][0]; }
  }

  lemma SameFirst(a: string, b: string)
    requires a != "" && b != "" && a[0] == b[0]
    ensures Dictionary(a, b) <==> Dictionary(a[1..], b[1..])
  {
    var s, t := a[1..], b[1..];
    assert a == [a[0]] + s && b == [a[0]] + t;
    forall k | 0 <= k < |s| && k < |t| && s[..k] == t[..k] && s[k] < t[k] ensures Dictionary(a, b) {
      assert a[..k + 1] == [a[0]] + s[..k] && b[..k + 1] == [a[0]] + t[..k] && a[k + 1] < b[k + 1];
    }
    forall k | 0 <= k < |a| && k < |b| && a[..k] == b[..k] && a[k] < b[k] ensures Dictionary(s, t) {
      assert k > 0;
      assert s[..k - 1] == a[..k][1..] && t[..k - 1] == b[..k][1..] && s[k - 1] < t[k - 1];
    }
  }

  /** Created earlier, or at the same time with an id that comes first. */
  ghost predicate OlderThan(tasks: map<Id, Row>, a: Id, b: Id)
    requires a in tasks && b in tasks
  {
    tasks[a].createdAt < tasks[b].createdAt || (tasks[a].createdAt == tasks[b].createdAt && Dictionary(a, b))
  }

  // Which rows a statement may touch

  ghost predicate Asked(row: Row, kind: string) { kind == "" || row.request.kind == kind }

  /** A task that may be handed out to a worker asking for `kind`. */
  ghost predicate Available(tasks: map<Id, Row>, id: Id, kind: string) {
    && id in tasks && tasks[id].status == Pending && Asked(tasks[id], kind)
    && forall d :: d in tasks[id].request.deps ==> d in tasks && tasks[d].status == Completed
  }

  /** The oldest of them. */
  ghost predicate HandedOut(tasks: map<Id, Row>, kind: string, id: Id) {
    Available(tasks, id, kind) && forall x :: Available(tasks, x, kind) ==> OlderThan(tasks, id, x)
  }

  /** Every pending task of the kind waits for some dependency. */
  ghost predicate NothingAvailable(tasks: map<Id, Row>, kind: string) {
    forall id :: id in tasks && tasks[id].status == Pending && Asked(tasks[id], kind) ==>
      exists d :: d in tasks[id].request.deps && d in tasks && tasks[d].status != Completed
  }

  ghost predicate RanOut(row: Row, now: Time) {
    row.status == Running && row.leaseUntil.Some? && row.leaseUntil.value <= now
  }

  ghost predicate Doomed(tasks: map<Id, Row>, id: Id) {
    && id in tasks && tasks[id].status == Pending
    && exists d :: d in tasks[id].request.deps && d in tasks && tasks[d].status == Failed
  }

  // What it writes there

  ghost predicate FreshRow(row: Row, request: Request, now: Time) {
    row == Row(request, Sha256(request), Pending, "", "", None, 0, "{}", now)
  }

  ghost predicate RecoveredRow(before: Row, row: Row) {
    row == Row(before.request, before.fingerprint,
               if before.attempts >= before.request.maxAttempts then Failed else Pending,
               "", "", None, before.attempts, before.result, before.createdAt)
  }

  ghost predicate DoomedRow(before: Row, row: Row) {
    row == Row(before.request, before.fingerprint, Failed, before.worker, before.token, before.leaseUntil,
               before.attempts, before.result, before.createdAt)
  }

  ghost predicate LeasedRow(before: Row, row: Row, worker: string, token: string, until: Time) {
    row == Row(before.request, before.fingerprint, Running, worker, token, Some(until),
               before.attempts + 1, before.result, before.createdAt)
  }

  ghost predicate ExtendedRow(before: Row, row: Row, until: Time) {
    row == Row(before.request, before.fingerprint, before.status, before.worker, before.token, Some(until),
               before.attempts, before.result, before.createdAt)
  }

  ghost predicate ReportedRow(before: Row, row: Row, status: Status, result: string) {
    row == Row(before.request, before.fingerprint, status, before.worker, "", None,
               before.attempts, result, before.createdAt)
  }

  /** Only the row of `id` may differ. */
  ghost predicate OnlyRow(before: map<Id, Row>, tasks: map<Id, Row>, id: Id) {
    id in tasks && tasks.Keys == before.Keys + {id} && forall x :: x in before && x != id ==> tasks[x] == before[x]
  }

  // Recovery

  /** Up to 100 leases that had run out were recovered, the ones that ran out first, and logged one by one. */
  ghost predicate Recovery(before: map<Id, Row>, tasks: map<Id, Row>, more: seq<Event>, ids: seq<Id>, now: Time) {
    && Distinct(ids) && |ids| <= 100 && tasks.Keys == before.Keys && |more| == |ids|
    && (forall id :: id in ids ==> id in before && RanOut(before[id], now) && RecoveredRow(before[id], tasks[id]))
    && (forall id :: id in before && id !in ids ==> tasks[id] == before[id])
    && (forall id :: id in before && id !in ids && RanOut(before[id], now) ==>
          |ids| == 100 && forall e :: e in ids ==> before[e].leaseUntil.value <= before[id].leaseUntil.value)
    && (forall i :: 0 <= i < |ids| ==>
          more[i] == Event(ids[i], if tasks[ids[i]].status == Failed then AttemptsExhausted else LeaseExpired, ""))
  }

  /** Up to 100 pending tasks with a failed dependency failed, all of them if fewer, and were logged one by one. */
  ghost predicate Propagation(before: map<Id, Row>, tasks: map<Id, Row>, more: seq<Event>, ids: seq<Id>) {
    && Distinct(ids) && |ids| <= 100 && tasks.Keys == before.Keys && |more| == |ids|
    && (forall id :: id in ids ==> Doomed(before, id) && DoomedRow(before[id], tasks[id]))
    && (forall id :: id in before && id !in ids ==> tasks[id] == before[id])
    && (|ids| < 100 ==> forall id :: Doomed(before, id) ==> id in ids)
    && (forall i :: 0 <= i < |ids| ==> more[i] == Event(ids[i], DependencyFailed, ""))
  }

  /** A task was leased to the worker, or there was none. */
  ghost predicate HandOut(before: map<Id, Row>, tasks: map<Id, Row>, more: seq<Event>, kind: string, worker: string,
                          token: string, until: Time, granted: Option<Id>)
  {
    match granted
    case None => NothingAvailable(before, kind) && tasks == before && more == []
    case Some(id) =>
      && HandedOut(before, kind, id) && OnlyRow(before, tasks, id)
      && LeasedRow(before[id], tasks[id], worker, token, until)
      && more == [Event(id, Claimed, worker)]
  }

  // Ownership

  ghost predicate OwnedBy(row: Row, worker: string, token: string, now: Time) {
    && row.worker == worker && row.token == token && row.status == Running
    && row.leaseUntil.Some? && row.leaseUntil.value > now
  }

  // The statements' own tests, in columns

  lemma StoredParents(s: Db)
    requires Inv(s)
    ensures forall id, d :: id in s.tasks && d in s.tasks[id].request.deps ==> d in s.tasks
  {
    hide Logged, Conserved;
    forall id, d | id in s.tasks && d in s.tasks[id].request.deps ensures d in s.tasks {
      assert ParentsOk(s.tasks, s.tasks[id]);
    }
  }

  lemma AvailableIsReady(tasks: map<Id, Row>, id: Id, kind: string)
    requires forall x, d :: x in tasks && d in tasks[x].request.deps ==> d in tasks
    ensures Available(tasks, id, kind) <==> Ready(tasks, id, kind)
  {
  }

  lemma PickInColumns(tasks: map<Id, Row>, kind: string, id: Id)
    requires forall x, d :: x in tasks && d in tasks[x].request.deps ==> d in tasks
    requires Ready(tasks, id, kind) && forall x :: Ready(tasks, x, kind) ==> Older(tasks, id, x)
    ensures HandedOut(tasks, kind, id)
  {
    hide Ready, Available, Dictionary, Leq;
    AvailableIsReady(tasks, id, kind);
    ReadyStored(tasks, id, kind);
    forall x | Available(tasks, x, kind) ensures x in tasks && OlderThan(tasks, id, x) {
      AvailableIsReady(tasks, x, kind);
      ReadyStored(tasks, x, kind);
      LeqIsDictionary(id, x);
    }
  }

  lemma ReadyStored(tasks: map<Id, Row>, id: Id, kind: string)
    requires Ready(tasks, id, kind)
    ensures id in tasks
  {
  }

  lemma NothingInColumns(tasks: map<Id, Row>, kind: string)
    requires forall id :: !Ready(tasks, id, kind)
    ensures NothingAvailable(tasks, kind)
  {
    forall id | id in tasks && tasks[id].status == Pending && Asked(tasks[id], kind)
      ensures exists d :: d in tasks[id].request.deps && d in tasks && tasks[d].status != Completed
    {
      assert !Ready(tasks, id, kind);
    }
  }
}
