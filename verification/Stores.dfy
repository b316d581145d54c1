/**
 The store as an object whose methods rewrite the task table and append to the
 event table (internal/queue/store.go:169-405), one call at a time. Random ids,
 tokens and clock readings are parameters; each method is proved against the
 transactions of module Transactions.
 */
module Stores {
  import opened Basics
  import opened Strings
  import opened Tasks
  import opened TaskLog
  import opened Dependencies
  import opened Requests
  import opened Transactions
  import opened Batches
  import opened Columns

  // ORDER BY ... LIMIT n

  ghost predicate TotalOrder(before: (Id, Id) -> bool) {
    && (forall a, b :: before(a, b) || before(b, a))
    && (forall a, b, c :: before(a, b) && before(b, c) ==> before(a, c))
  }

  method First(ids: set<Id>, before: (Id, Id) -> bool) returns (best: Id)
    requires TotalOrder(before) && ids != {}
    ensures best in ids && forall x :: x in ids ==> before(best, x)
  {
    best :| best in ids;
    var rest := ids - {best};
    while rest != {}
      invariant rest <= ids && best in ids
      invariant forall x :: x in ids && x !in rest ==> before(best, x)
    {
      var x :| x in rest;
      rest := rest - {x};
      if !before(best, x) { best := x; }
    }
  }

  /** The first `limit` ids in order. */
  method Select(ids: set<Id>, before: (Id, Id) -> bool, limit: nat) returns (out: seq<Id>)
    requires TotalOrder(before)
    ensures Distinct(out) && |out| <= limit
    ensures forall x :: x in out ==> x in ids
    ensures forall i, j :: 0 <= i < j < |out| ==> before(out[i], out[j])
    ensures forall x, y :: x in ids && x !in out && y in out ==> before(y, x)
    ensures |out| < limit ==> forall x :: x in ids ==> x in out
  {
    out := [];
    var rest := ids;
    while |out| < limit && rest != {}
      invariant |out| <= limit && rest <= ids
      invariant forall x :: x in ids <==> x in rest || x in out
      invariant forall x :: x in out ==> x !in rest
      invariant Distinct(out)
      invariant forall i, j :: 0 <= i < j < |out| ==> before(out[i], out[j])
      invariant forall x, y :: x in rest && y in out ==> before(y, x)
      decreases limit - |out|
    {
      var x := First(rest, before);
      rest := rest - {x};
      out := out + [x];
    }
  }

  function LeaseKey(tasks: map<Id, Row>, id: Id): Time {
    if id in tasks then LeaseEnd(tasks[id]) else 0
  }

  function AgeKey(tasks: map<Id, Row>, id: Id): Time {
    if id in tasks then tasks[id].createdAt else 0
  }

  function ByLease(tasks: map<Id, Row>): (Id, Id) -> bool {
    (a: Id, b: Id) => LeaseKey(tasks, a) <= LeaseKey(tasks, b)
  }

  function ByAge(tasks: map<Id, Row>): (Id, Id) -> bool {
    (a: Id, b: Id) => Earlier(AgeKey(tasks, a), a, AgeKey(tasks, b), b)
  }

  /** ORDER BY created_at DESC, id DESC */
  function Newest(tasks: map<Id, Row>): (Id, Id) -> bool { (a: Id, b: Id) => ByAge(tasks)(b, a) }

  lemma ByAgeIsOrder(tasks: map<Id, Row>)
    ensures TotalOrder(ByAge(tasks)) && TotalOrder(Newest(tasks))
  {
    var f, g := ByAge(tasks), Newest(tasks);
    forall a, b ensures f(a, b) || f(b, a) { LeqTotal(a, b); }
    forall a, b ensures g(a, b) || g(b, a) { LeqTotal(a, b); }
    forall a, b, c | f(a, b) && f(b, c) ensures f(a, c) { AgeTransitive(tasks, a, b, c); }
    forall a, b, c | g(a, b) && g(b, c) ensures g(a, c) { AgeTransitive(tasks, c, b, a); }
  }

  lemma AgeOlder(tasks: map<Id, Row>, a: Id, b: Id)
    requires a in tasks && b in tasks
    ensures ByAge(tasks)(a, b) <==> Older(tasks, a, b)
  {
  }

  lemma AgeTransitive(tasks: map<Id, Row>, a: Id, b: Id, c: Id)
    requires ByAge(tasks)(a, b) && ByAge(tasks)(b, c)
    ensures ByAge(tasks)(a, c)
  {
    if Leq(a, b) && Leq(b, c) { LeqTransitive(a, b, c); }
  }

  /** The columns of a task that leave the store; the lease token is not among them. */
  datatype Summary = Summary(
    id: Id, title: string, kind: string, input: string, deps: seq<Id>, status: Status, worker: string,
    leaseUntil: Option<Time>, attempts: int, maxAttempts: int, result: string, createdAt: Time)

  function Summarize(id: Id, row: Row): Summary {
    Summary(id, row.request.title, row.request.kind, row.request.input, row.request.deps, row.status, row.worker,
            row.leaseUntil, row.attempts, row.request.maxAttempts, row.result, row.createdAt)
  }

  class Store {
    var tasks: map<Id, Row>
    var events: seq<Event>
    ghost var issued: set<string>
    const lease: Time

    constructor (lease: Time)
      ensures Valid() && Contents() == EMPTY && this.lease == lease
    {
      tasks, events, issued := map[], [], {};
      this.lease := lease;
      new;
      Reachable([]);
    }

    ghost function Contents(): Db
      reads this
    {
      Db(tasks, events, issued)
    }

    ghost predicate Valid()
      reads this
    {
      Inv(Contents())
    }

    /** `id` is the fresh random id the insert would use. */
    method Create(raw: Raw, id: Id, now: Time) returns (reply: Reply, ghost ops: seq<Op>)
      requires Valid() && id != "" && id !in issued
      modifies this
      ensures Valid() && Run(old(Contents()), ops) && Contents() == State(old(Contents()), ops)
      ensures Normalized(raw).None? ==> reply == Invalid && ops == []
      ensures Normalized(raw).Some? && reply.CreatedTask? ==>
        Commits(old(Contents()), CreateCall(Normalized(raw).value), lease, ops, reply)
      ensures Normalized(raw).Some? && !reply.CreatedTask? ==>
        ops == [] && Refuses(old(Contents()), CreateCall(Normalized(raw).value), now, reply)
      ensures reply.CreatedTask? && reply.id !in old(tasks) ==>
        && Normalized(raw).Some? && reply.id == id && OnlyRow(old(tasks), tasks, id)
        && FreshRow(tasks[id], Normalized(raw).value, now) && events == old(events) + [Event(id, Created, "")]
      ensures reply.CreatedTask? && reply.id in old(tasks) ==>
        && Normalized(raw).Some? && tasks == old(tasks) && events == old(events)
        && tasks[reply.id].request == Normalized(raw).value
      ensures !reply.CreatedTask? ==> tasks == old(tasks) && events == old(events)
    {
      hide Inv, Normalized, Fits, Normalizes, Commits, Refuses, Run, State, OnlyRow, FreshRow, NewRow;
      ops := [];
      NothingRuns(Contents());
      var request := new CreateRequest(raw);
      var ok := request.Normalize();
      if !ok { return Invalid, []; }
      var r := Request(request.key, request.title, request.kind, request.input, request.deps.value,
                       request.maxAttempts);
      assert r == Normalized(raw).value;
      NormalizedLimits(raw);
      for i := 0 to |r.deps|
        invariant forall d :: d in r.deps[..i] ==> d in tasks
      {
        if r.deps[i] !in tasks {
          MissingRefused(Contents(), r, i, now);
          return Invalid, [];
        }
      }
      assert r.deps[..|r.deps|] == r.deps;
      if found :| found in tasks && tasks[found].request.key == r.key {
        if tasks[found].fingerprint != Sha256(r) {
          OtherRefused(Contents(), r, found, now);
          return Conflict, [];
        }
        FoundStands(Contents(), r, found, lease);
        return CreatedTask(found), [];
      }
      InsertStands(Contents(), id, r, now, lease);
      ops := [Insert(id, r, now)];
      tasks := tasks[id := NewRow(r, now)];
      events := events + [Event(id, Created, "")];
      issued := issued + {id};
      reply := CreatedTask(id);
    }

    /** First statement of recoverExpired: up to 100 expired leases, oldest first. */
    method RecoverLeases(now: Time) returns (expired: seq<Id>)
      requires Valid()
      modifies this
      ensures Valid() && FullRecovery(old(Contents()), expired, now, now)
      ensures Run(old(Contents()), ExpireOps(expired, now))
      ensures Contents() == State(old(Contents()), ExpireOps(expired, now))
      ensures old(events) <= events && Recovery(old(tasks), tasks, events[|old(events)|..], expired, now)
    {
      hide Inv;
      var candidates := set id | id in tasks && Expired(tasks[id], now);
      expired := Select(candidates, ByLease(tasks), BATCH);
      assert FullRecovery(Contents(), expired, now, now);
      ExpireBatch(Contents(), expired, now);
      RunInv(Contents(), ExpireOps(expired, now));
      RecoveryInColumns(Contents(), expired, now);
      hide FullRecovery, State, Run, Recovery;
      RewriteExpired(expired);
    }

    method RewriteExpired(ids: seq<Id>)
      requires Distinct(ids) && forall id :: id in ids ==> id in tasks
      modifies this
      ensures Contents() == AfterRecovery(old(Contents()), ids)
    {
      assert UpdateAll(tasks, [], Recovered) == tasks;
      for i := 0 to |ids|
        invariant issued == old(issued)
        invariant tasks == UpdateAll(old(tasks), ids[..i], Recovered)
        invariant events == old(events) + RecoveryEvents(old(tasks), ids[..i])
      {
        var id := ids[i];
        assert ids[..i + 1] == ids[..i] + [id];
        UpdateSnoc(old(tasks), ids[..i], id, Recovered);
        assert tasks[id] == old(tasks)[id];
        events := events + [Event(id, RecoveryAction(tasks[id]), "")];
        tasks := tasks[id := Recovered(tasks[id])];
      }
      assert ids[..|ids|] == ids;
    }

    /** Second statement: up to 100 pending tasks with a failed parent. */
    method PropagateFailures() returns (blocked: seq<Id>)
      requires Valid()
      modifies this
      ensures Valid() && FullPropagation(old(Contents()), blocked)
      ensures Run(old(Contents()), BlockOps(blocked))
      ensures Contents() == State(old(Contents()), BlockOps(blocked))
      ensures old(events) <= events && Propagation(old(tasks), tasks, events[|old(events)|..], blocked)
    {
      hide Inv;
      var candidates := set id | id in tasks && tasks[id].status == Pending && SomeParentFailed(tasks, tasks[id]);
      var any := (a: Id, b: Id) => true;
      blocked := Select(candidates, any, BATCH);
      assert forall id :: Blocked(Contents(), id) <==> id in candidates;
      assert FullPropagation(Contents(), blocked);
      BlockBatch(Contents(), blocked);
      RunInv(Contents(), BlockOps(blocked));
      PropagationInColumns(Contents(), blocked);
      hide FullPropagation, State, Run, Propagation;
      RewriteBlocked(blocked);
    }

    method RewriteBlocked(ids: seq<Id>)
      requires Distinct(ids) && forall id :: id in ids ==> id in tasks
      modifies this
      ensures Contents() == AfterPropagation(old(Contents()), ids)
    {
      assert UpdateAll(tasks, [], FailRow) == tasks;
      for i := 0 to |ids|
        invariant issued == old(issued)
        invariant tasks == UpdateAll(old(tasks), ids[..i], FailRow)
        invariant events == old(events) + PropagationEvents(ids[..i])
      {
        var id := ids[i];
        assert ids[..i + 1] == ids[..i] + [id];
        UpdateSnoc(old(tasks), ids[..i], id, FailRow);
        assert tasks[id] == old(tasks)[id];
        events := events + [Event(id, DependencyFailed, "")];
        tasks := tasks[id := FailRow(tasks[id])];
      }
      assert ids[..|ids|] == ids;
    }

    /** Third statement: lease the oldest ready task of the kind. */
    method Pick(worker: string, kind: string, token: string, now: Time) returns (reply: Reply, ghost take: seq<Op>)
      requires Valid() && worker != "" && token != "" && token !in issued
      modifies this
      ensures Valid() && FullPick(old(Contents()), worker, kind, lease, take, reply)
      ensures take != [] ==> take[0].now == now && take[0].token == token
      ensures Run(old(Contents()), take) && Contents() == State(old(Contents()), take)
      ensures reply == NoTask || (reply.Granted? && reply.token == token)
      ensures old(events) <= events
      ensures HandOut(old(tasks), tasks, events[|old(events)|..], kind, worker, token, now + lease,
                      if reply.Granted? then Some(reply.id) else None)
    {
      hide Inv, Older, FullPick, State, Run, HandOut;
      var candidates := set id | id in tasks && Ready(tasks, id, kind);
      if candidates == {} {
        assert forall id :: Ready(tasks, id, kind) ==> id in candidates;
        NothingIsFull(Contents(), worker, kind, token, now, lease);
        assert events[|old(events)|..] == [];
        return NoTask, [];
      }
      ByAgeIsOrder(tasks);
      var id := First(candidates, ByAge(tasks));
      assert forall x :: Ready(tasks, x, kind) ==> x in candidates;
      hide Ready, ByAge, Leased;
      take := [Take(id, worker, token, now, now + lease)];
      PickStands(Contents(), worker, kind, token, now, lease, id);
      reply := Granted(id, token);
      tasks := tasks[id := Leased(tasks[id], worker, token, now + lease)];
      events := events + [Event(id, Claimed, worker)];
      issued := issued + {token};
    }

    /** `token` is the fresh random token of the call; the two readings are in clock order. */
    method Claim(worker: string, kind: string, token: string, now: Time, later: Time)
      returns (reply: Reply, ghost work: Claiming, ghost recovered: map<Id, Row>, ghost settled: map<Id, Row>)
      requires Valid() && token != "" && token !in issued && now <= later
      modifies this
      ensures Valid()
      ensures 1 <= Utf8Length(worker) <= 100 && Utf8Length(kind) <= 64 ==>
        exists a, b ::
          && old(events) <= a <= b <= events
          && Recovery(old(tasks), recovered, a[|old(events)|..], work.expired, now)
          && Propagation(recovered, settled, b[|a|..], work.blocked)
          && HandOut(settled, tasks, events[|b|..], kind, worker, token, later + lease,
                     if reply.Granted? then Some(reply.id) else None)
          && (reply == NoTask || (reply.Granted? && reply.token == token))
      ensures !WellCalled(ClaimCall(worker, kind)) ==> reply == Invalid && Contents() == old(Contents())
      ensures WellCalled(ClaimCall(worker, kind)) ==>
        && FullClaim(old(Contents()), worker, kind, lease, work, reply)
        && work.start == work.now == now && (work.take != [] ==> work.take[0].now == later)
        && Contents() == State(old(Contents()), work.Ops())
        && Commits(old(Contents()), ClaimCall(worker, kind), lease, work.Ops(), reply)
    {
      hide Inv, FullRecovery, FullPropagation, FullPick, State, Run, Commits;
      work, recovered, settled := Claiming([], now, now, [], []), tasks, tasks;
      if Utf8Length(worker) == 0 || Utf8Length(worker) > 100 || Utf8Length(kind) > 64 {
        return Invalid, work, recovered, settled;
      }
      ghost var s := Contents();
      var expired := RecoverLeases(now);
      BatchNonces(s, expired, now);
      ghost var s1 := Contents();
      recovered := tasks;
      var blocked := PropagateFailures();
      BlockNonces(s1, blocked);
      settled := tasks;
      ghost var a, b := s1.events, events;
      ghost var take;
      reply, take := Pick(worker, kind, token, later);
      work := Claiming(expired, now, now, blocked, take);
      FullClaimCommits(s, worker, kind, lease, work, reply);
      assert old(events) <= a <= b <= events;
    }

    /** Heartbeat, Complete and Fail: row lock, ownership test at `now`, new lease read at `later`. */
    method UpdateLease(action: LeaseAction, id: Id, worker: string, token: string, result: string, now: Time,
                       later: Time)
      returns (reply: Reply, ghost ops: seq<Op>)
      requires Valid() && now <= later
      modifies this
      ensures Valid() && Run(old(Contents()), ops) && Contents() == State(old(Contents()), ops)
      ensures !WellCalled(LeaseCall(action, id, worker, token, result)) ==> reply == BadLease && ops == []
      ensures WellCalled(LeaseCall(action, id, worker, token, result)) ==>
        var call := LeaseCall(action, id, worker, token, result);
        if reply.Updated? then Commits(old(Contents()), call, lease, ops, reply)
        else ops == [] && Refuses(old(Contents()), call, now, reply)
      ensures reply ==
        if worker == "" || token == "" || Utf8Length(worker) > 100 || Utf8Length(token) != 32 then BadLease
        else if id !in old(tasks) then NotFound
        else if action != Heartbeat && !ValidObject(result) then Invalid
        else if OwnedBy(old(tasks)[id], worker, token, now) then Updated(id) else BadLease
      ensures !reply.Updated? ==> tasks == old(tasks) && events == old(events)
      ensures reply.Updated? ==> id in old(tasks) && OnlyRow(old(tasks), tasks, id)
      ensures reply.Updated? && action == Heartbeat ==>
        ExtendedRow(old(tasks)[id], tasks[id], later + lease) && events == old(events)
      ensures reply.Updated? && action == Complete ==>
        && ReportedRow(old(tasks)[id], tasks[id], Status.Completed, result)
        && events == old(events) + [Event(id, ReportedCompleted, worker)]
      ensures reply.Updated? && action == Fail ==>
        && ReportedRow(old(tasks)[id], tasks[id], Status.Failed, result)
        && events == old(events) + [Event(id, ReportedFailed, worker)]
    {
      hide Inv, ValidObject;
      ops := [];
      if worker == "" || token == "" || Utf8Length(worker) > 100 || Utf8Length(token) != 32 {
        return BadLease, [];
      }
      if id !in tasks { return NotFound, []; }
      ghost var op := if action == Heartbeat then Beat(id, worker, token, now, later + lease)
                      else Finish(id, worker, token, now, action == Complete, result);
      if action != Heartbeat && !ValidObject(result) { return Invalid, []; }
      if !Owned(tasks[id], worker, token, now) { return BadLease, []; }
      OneRuns(Contents(), op);
      ops := [op];
      reply := Updated(id);
      if action == Heartbeat {
        tasks := tasks[id := tasks[id].(leaseUntil := Some(later + lease))];
        assert events + [] == events;
      } else {
        tasks := tasks[id := Finished(tasks[id], action == Complete, result)];
        events := events + [Event(id, if action == Complete then ReportedCompleted else ReportedFailed, worker)];
      }
      assert issued + {} == issued;
      assert Contents() == State(old(Contents()), ops);
    }

    /** The newest tasks and events, and how many tasks there are in each status. */
    method Snapshot()
      returns (rows: seq<Summary>, recent: seq<Event>, pending: nat, running: nat, completed: nat, failed: nat)
      requires Valid()
      ensures NewestRows(tasks, rows) && NewestFirst(events, recent)
      ensures pending + running + completed + failed == |tasks|
      ensures completed == Occurrences(events, ReportedCompleted)
      ensures failed == Occurrences(events, ReportedFailed) + Occurrences(events, AttemptsExhausted)
                        + Occurrences(events, DependencyFailed)
      ensures running == Occurrences(events, Claimed) - Occurrences(events, ReportedCompleted)
                         - Occurrences(events, ReportedFailed) - Occurrences(events, LeaseExpired)
                         - Occurrences(events, AttemptsExhausted)
    {
      hide Inv, Occurrences, NewestRows, NewestFirst, Count;
      rows := SelectTasks(tasks);
      pending, running, completed, failed := CountAll(tasks);
      recent := SelectEvents(events);
      ConservedCounts(Contents());
      CountsAddUp(tasks);
    }
  }

  /** Every column shown is the column of the same name. */
  ghost predicate Shows(shown: Summary, row: Row) {
    && shown.title == row.request.title && shown.kind == row.request.kind && shown.input == row.request.input
    && shown.deps == row.request.deps && shown.status == row.status && shown.worker == row.worker
    && shown.leaseUntil == row.leaseUntil && shown.attempts == row.attempts
    && shown.maxAttempts == row.request.maxAttempts && shown.result == row.result && shown.createdAt == row.createdAt
  }

  /** Up to 100 tasks, newest first, with no newer one left out. */
  ghost predicate NewestRows(tasks: map<Id, Row>, rows: seq<Summary>) {
    && |rows| <= 100
    && (forall i :: 0 <= i < |rows| ==> rows[i].id in tasks && Shows(rows[i], tasks[rows[i].id]))
    && (forall i, j :: 0 <= i < j < |rows| ==>
          rows[i].id != rows[j].id && OlderThan(tasks, rows[j].id, rows[i].id))
    && (forall id :: id in tasks ==>
          || (exists i :: 0 <= i < |rows| && rows[i].id == id)
          || (|rows| == 100 && forall i :: 0 <= i < |rows| ==> OlderThan(tasks, id, rows[i].id)))
  }

  /** Tables that differ at most in their lease tokens. */
  ghost predicate SameButTokens(a: map<Id, Row>, b: map<Id, Row>) {
    a.Keys == b.Keys && forall id :: id in a ==> a[id].(token := b[id].token) == b[id]
  }

  /** No answer depends on a lease token. */
  lemma SnapshotHidesTokens(a: map<Id, Row>, b: map<Id, Row>, rows: seq<Summary>)
    requires SameButTokens(a, b)
    ensures NewestRows(a, rows) <==> NewestRows(b, rows)
  {
    forall id | id in a ensures id in b && a[id].(token := b[id].token) == b[id] {}
    forall x, y | x in a && y in a ensures OlderThan(a, x, y) <==> OlderThan(b, x, y) {}
    forall i | 0 <= i < |rows| && rows[i].id in a
      ensures Shows(rows[i], a[rows[i].id]) <==> Shows(rows[i], b[rows[i].id])
    {
    }
  }

  /** The last 100 events, latest first. */
  predicate NewestFirst(events: seq<Event>, recent: seq<Event>) {
    && |recent| == (if |events| < 100 then |events| else 100)
    && forall i :: 0 <= i < |recent| ==> recent[i] == events[|events| - 1 - i]
  }

  method SelectTasks(tasks: map<Id, Row>) returns (rows: seq<Summary>)
    ensures NewestRows(tasks, rows)
  {
    hide Newest, Summarize;
    ByAgeIsOrder(tasks);
    var ids := Select(tasks.Keys, Newest(tasks), 100);
    rows := [];
    for i := 0 to |ids|
      invariant |rows| == i && forall k :: 0 <= k < i ==> rows[k] == Summarize(ids[k], tasks[ids[k]])
    {
      rows := rows + [Summarize(ids[i], tasks[ids[i]])];
    }
    RowsOf(tasks, ids, rows);
  }

  lemma NewestInColumns(tasks: map<Id, Row>, a: Id, b: Id)
    requires a in tasks && b in tasks
    ensures Newest(tasks)(a, b) <==> OlderThan(tasks, b, a)
  {
    hide ByAge, Leq, Dictionary;
    AgeOlder(tasks, b, a);
    LeqIsDictionary(b, a);
  }

  lemma RowsOf(tasks: map<Id, Row>, ids: seq<Id>, rows: seq<Summary>)
    requires Distinct(ids) && |ids| <= 100 && (forall id :: id in ids ==> id in tasks) && |rows| == |ids|
    requires forall i :: 0 <= i < |ids| ==> rows[i] == Summarize(ids[i], tasks[ids[i]])
    requires forall i, j :: 0 <= i < j < |ids| ==> Newest(tasks)(ids[i], ids[j])
    requires forall x, y :: x in tasks.Keys && x !in ids && y in ids ==> Newest(tasks)(y, x)
    requires |ids| < 100 ==> forall x :: x in tasks.Keys ==> x in ids
    ensures NewestRows(tasks, rows)
  {
    forall i | 0 <= i < |ids| ensures rows[i].id == ids[i] && ids[i] in ids && Shows(rows[i], tasks[ids[i]]) {}
    hide Newest, OlderThan, Summarize, Shows;
    forall i, j | 0 <= i < j < |ids| ensures OlderThan(tasks, ids[j], ids[i]) {
      NewestInColumns(tasks, ids[i], ids[j]);
    }
    forall id | id in tasks
      ensures (exists i :: 0 <= i < |rows| && rows[i].id == id)
           || (|rows| == 100 && forall i :: 0 <= i < |rows| ==> OlderThan(tasks, id, rows[i].id))
    {
      if id in ids {
        var i :| 0 <= i < |ids| && ids[i] == id;
        assert rows[i].id == id;
      } else {
        forall i | 0 <= i < |rows| ensures OlderThan(tasks, id, rows[i].id) { NewestInColumns(tasks, ids[i], id); }
      }
    }
  }

  method SelectEvents(events: seq<Event>) returns (recent: seq<Event>)
    ensures NewestFirst(events, recent)
  {
    recent := [];
    while |recent| < 100 && |recent| < |events|
      invariant |recent| <= 100 && |recent| <= |events|
      invariant forall i :: 0 <= i < |recent| ==> recent[i] == events[|events| - 1 - i]
    {
      recent := recent + [events[|events| - 1 - |recent|]];
    }
  }

  lemma NothingRuns(s: Db)
    ensures Run(s, []) && State(s, []) == s
  {
  }

  lemma MissingRefused(s: Db, r: Request, i: nat, now: Time)
    requires i < |r.deps| && r.deps[i] !in s.tasks
    ensures Refuses(s, CreateCall(r), now, Invalid)
  {
  }

  lemma OtherRefused(s: Db, r: Request, id: Id, now: Time)
    requires forall d :: d in r.deps ==> d in s.tasks
    requires id in s.tasks && s.tasks[id].request.key == r.key && s.tasks[id].fingerprint != Sha256(r)
    ensures Refuses(s, CreateCall(r), now, Conflict)
  {
  }

  /** An equal fingerprint under the key means an equal request. */
  lemma FoundStands(s: Db, r: Request, id: Id, lease: Time)
    requires Inv(s) && (forall d :: d in r.deps ==> d in s.tasks) && Existing(s.tasks, r, id)
    ensures Commits(s, CreateCall(r), lease, [], CreatedTask(id)) && s.tasks[id].request == r
  {
    hide Logged, Conserved;
    assert RowOk(s.tasks[id]);
  }

  lemma RecoveryInColumns(s: Db, ids: seq<Id>, now: Time)
    requires FullRecovery(s, ids, now, now)
    ensures var t := AfterRecovery(s, ids);
      s.events <= t.events && Recovery(s.tasks, t.tasks, t.events[|s.events|..], ids, now)
  {
    assert AfterRecovery(s, ids).events[|s.events|..] == RecoveryEvents(s.tasks, ids);
  }

  lemma PropagationInColumns(s: Db, ids: seq<Id>)
    requires FullPropagation(s, ids)
    ensures var t := AfterPropagation(s, ids);
      s.events <= t.events && Propagation(s.tasks, t.tasks, t.events[|s.events|..], ids)
  {
    assert AfterPropagation(s, ids).events[|s.events|..] == PropagationEvents(ids);
    assert forall id :: Doomed(s.tasks, id) <==> Blocked(s, id);
  }

  lemma PickIsFull(s: Db, worker: string, kind: string, lease: Time, op: Op)
    requires op.Take? && op.worker == worker && op.until == op.now + lease && Ready(s.tasks, op.id, kind)
    requires forall x :: Ready(s.tasks, x, kind) ==> Older(s.tasks, op.id, x)
    ensures FullPick(s, worker, kind, lease, [op], Granted(op.id, op.token))
  {
    hide Older, NoParentUnfinished;
  }

  lemma NothingIsFull(s: Db, worker: string, kind: string, token: string, now: Time, lease: Time)
    requires forall id :: !Ready(s.tasks, id, kind)
    ensures FullPick(s, worker, kind, lease, [], NoTask) && Run(s, []) && State(s, []) == s
    ensures HandOut(s.tasks, s.tasks, [], kind, worker, token, now + lease, None)
  {
    NothingInColumns(s.tasks, kind);
    hide NothingAvailable, Ready;
  }

  /** All that Pick promises of the row it has chosen. */
  lemma PickStands(s: Db, worker: string, kind: string, token: string, now: Time, lease: Time, id: Id)
    requires Inv(s) && worker != "" && token != "" && token !in s.issued && Ready(s.tasks, id, kind)
    requires forall x :: Ready(s.tasks, x, kind) ==> ByAge(s.tasks)(id, x)
    ensures id in s.tasks
    ensures var take := [Take(id, worker, token, now, now + lease)];
      var row := Leased(s.tasks[id], worker, token, now + lease);
      && FullPick(s, worker, kind, lease, take, Granted(id, token))
      && Run(s, take) && Inv(State(s, take))
      && State(s, take) == Db(s.tasks[id := row], s.events + [Event(id, Claimed, worker)], s.issued + {token})
      && HandOut(s.tasks, s.tasks[id := row], [Event(id, Claimed, worker)], kind, worker, token, now + lease, Some(id))
  {
    hide Inv, Older, FullPick, State, Run, HandOut, HandedOut, ByAge;
    var op := Take(id, worker, token, now, now + lease);
    TakeRuns(s, op);
    forall x | Ready(s.tasks, x, kind) ensures Older(s.tasks, id, x) { AgeOlder(s.tasks, id, x); }
    PickIsFull(s, worker, kind, lease, op);
    StoredParents(s);
    PickInColumns(s.tasks, kind, id);
    LeasedInColumns(s.tasks, kind, id, worker, token, now + lease);
  }

  lemma LeasedInColumns(tasks: map<Id, Row>, kind: string, id: Id, worker: string, token: string, until: Time)
    requires HandedOut(tasks, kind, id) && id in tasks
    ensures HandOut(tasks, tasks[id := Leased(tasks[id], worker, token, until)], [Event(id, Claimed, worker)],
                    kind, worker, token, until, Some(id))
  {
    hide HandedOut;
  }

  /** SELECT status, count(*) GROUP BY status */
  method CountAll(tasks: map<Id, Row>) returns (pending: nat, running: nat, completed: nat, failed: nat)
    ensures pending == Count(tasks, Pending) && running == Count(tasks, Running)
    ensures completed == Count(tasks, Completed) && failed == Count(tasks, Failed)
  {
    pending, running, completed, failed := 0, 0, 0, 0;
    var rest := tasks;
    while rest != map[]
      invariant pending + Count(rest, Pending) == Count(tasks, Pending)
      invariant running + Count(rest, Running) == Count(tasks, Running)
      invariant completed + Count(rest, Completed) == Count(tasks, Completed)
      invariant failed + Count(rest, Failed) == Count(tasks, Failed)
      decreases |rest|
    {
      var id :| id in rest;
      SumRemove(rest, Is(Pending), id);
      SumRemove(rest, Is(Running), id);
      SumRemove(rest, Is(Completed), id);
      SumRemove(rest, Is(Failed), id);
      SizeRemove(rest, id);
      match rest[id].status {
        case Pending => pending := pending + 1;
        case Running => running := running + 1;
        case Completed => completed := completed + 1;
        case Failed => failed := failed + 1;
      }
      rest := rest - {id};
    }
  }

  lemma ConservedCounts(s: Db)
    requires Inv(s)
    ensures Conserved(s)
  {
  }

  lemma OneRuns(s: Db, op: Op)
    requires Inv(s) && Guard(s, op)
    ensures Run(s, [op]) && Inv(State(s, [op])) && State(s, [op]) == Apply(s, op)
  {
    hide Inv, Guard, Apply;
    Snoc(s, [], op);
    assert [] + [op] == [op];
    StepInv(s, op);
  }

  lemma TakeRuns(s: Db, op: Op)
    requires Inv(s) && op.Take? && Guard(s, op)
    ensures Run(s, [op]) && Inv(State(s, [op]))
    ensures State(s, [op]) == Db(s.tasks[op.id := Leased(s.tasks[op.id], op.worker, op.token, op.until)],
                                 s.events + [Event(op.id, Claimed, op.worker)], s.issued + {op.token})
  {
    OneRuns(s, op);
  }

  lemma BatchNonces(s: Db, ids: seq<Id>, now: Time)
    requires FullRecovery(s, ids, now, now)
    ensures State(s, ExpireOps(ids, now)).issued == s.issued
  {
    ExpireBatch(s, ids, now);
  }

  lemma BlockNonces(s: Db, ids: seq<Id>)
    requires FullPropagation(s, ids)
    ensures State(s, BlockOps(ids)).issued == s.issued
  {
    BlockBatch(s, ids);
  }

  lemma NormalizedLimits(raw: Raw)
    requires Normalized(raw).Some?
    ensures 1 <= Normalized(raw).value.maxAttempts <= 5
  {
  }

  /** All that an insert promises. */
  lemma InsertStands(s: Db, id: Id, r: Request, now: Time, lease: Time)
    requires Inv(s) && id !in s.issued && id != "" && 1 <= r.maxAttempts <= 5
    requires (forall d :: d in r.deps ==> d in s.tasks) && forall x :: x in s.tasks ==> s.tasks[x].request.key != r.key
    ensures id !in s.tasks
    ensures var ops, tasks := [Insert(id, r, now)], s.tasks[id := NewRow(r, now)];
      && Run(s, ops) && Inv(State(s, ops)) && Commits(s, CreateCall(r), lease, ops, CreatedTask(id))
      && State(s, ops) == Db(tasks, s.events + [Event(id, Created, "")], s.issued + {id})
      && OnlyRow(s.tasks, tasks, id) && FreshRow(tasks[id], r, now)
  {
    hide Inv, Run, State, ClaimShape, LeaseShape;
    FreshId(s, id);
    InsertRuns(s, id, r, now);
  }

  lemma FreshId(s: Db, id: Id)
    requires Inv(s) && id !in s.issued
    ensures id !in s.tasks
  {
    hide Logged, Conserved;
  }

  lemma InsertRuns(s: Db, id: Id, r: Request, now: Time)
    requires Inv(s) && InsertGuard(s, id, r)
    ensures Run(s, [Insert(id, r, now)]) && Inv(State(s, [Insert(id, r, now)]))
    ensures State(s, [Insert(id, r, now)])
         == Db(s.tasks[id := NewRow(r, now)], s.events + [Event(id, Created, "")], s.issued + {id})
  {
    var op := Insert(id, r, now);
    assert [op][..0] == [];
    StepInv(s, op);
  }
}
