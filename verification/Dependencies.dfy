/**
 Dependency gating over whole runs: the stored graph stays acyclic, a claimed
 task has only completed ancestors, the log shows the parents first, and a
 failed task only ever dooms tasks that nobody has claimed
 (internal/queue/store.go:182-192, 231-257).
 */
module Dependencies {
  import opened Tasks
  import opened TaskLog
  import opened Leases

  /** A walk from a task to one of its ancestors along stored dependencies. */
  predicate DepPath(tasks: map<Id, Row>, p: seq<Id>) {
    && |p| >= 1
    && (forall i :: 0 <= i < |p| ==> p[i] in tasks)
    && (forall i :: 0 <= i < |p| - 1 ==> p[i + 1] in tasks[p[i]].request.deps)
  }

  ghost predicate Acyclic(tasks: map<Id, Row>) {
    forall p :: DepPath(tasks, p) && |p| >= 2 ==> p[0] != p[|p| - 1]
  }

  /** A walk after an operation that does not end in a new task was a walk before it. */
  lemma PathBefore(s: Db, op: Op, p: seq<Id>)
    requires Tables(s) && Guard(s, op) && DepPath(Apply(s, op).tasks, p)
    requires p[0] in s.tasks
    ensures DepPath(s.tasks, p)
  {
    var t := Apply(s, op);
    forall i | 0 <= i < |p| ensures p[i] in s.tasks {
      if i > 0 { PathStays(s, op, p, i); }
    }
    forall i | 0 <= i < |p| - 1 ensures p[i + 1] in s.tasks[p[i]].request.deps {
      assert t.tasks[p[i]].request == s.tasks[p[i]].request;
    }
  }

  /** Parents of stored tasks are stored, so a walk never leaves the old tasks. */
  lemma {:induction false} PathStays(s: Db, op: Op, p: seq<Id>, i: nat)
    requires Tables(s) && Guard(s, op) && DepPath(Apply(s, op).tasks, p) && i < |p|
    requires p[0] in s.tasks
    ensures p[i] in s.tasks
    decreases i
  {
    if i == 0 {
    } else {
      PathStays(s, op, p, i - 1);
      assert ParentsOk(s.tasks, s.tasks[p[i - 1]]);
      assert Apply(s, op).tasks[p[i - 1]].request == s.tasks[p[i - 1]].request;
    }
  }

  lemma StepAcyclic(s: Db, op: Op)
    requires Tables(s) && Guard(s, op) && Acyclic(s.tasks)
    ensures Acyclic(Apply(s, op).tasks)
  {
    var t := Apply(s, op);
    forall p | DepPath(t.tasks, p) && |p| >= 2 ensures p[0] != p[|p| - 1] {
      if p[0] in s.tasks {
        PathBefore(s, op, p);
      } else {
        // p[0] is the new task; everything after it is old
        assert op.Insert? && p[0] == op.id && p[1] in s.tasks;
        var q := p[1..];
        assert DepPath(t.tasks, q) by {
          forall i | 0 <= i < |q| - 1 ensures q[i + 1] in t.tasks[q[i]].request.deps {
            assert q[i] == p[i + 1] && q[i + 1] == p[i + 2];
          }
        }
        PathBefore(s, op, q);
        assert q[|q| - 1] == p[|p| - 1];
      }
    }
  }

  /** No run can store a dependency cycle. */
  lemma {:induction false} NeverCyclic(ops: seq<Op>)
    requires Run(EMPTY, ops)
    ensures Acyclic(State(EMPTY, ops).tasks)
    decreases |ops|
  {
    if ops == [] {
    } else {
      var n := |ops| - 1;
      NeverCyclic(ops[..n]);
      Reachable(ops[..n]);
      StepAcyclic(State(EMPTY, ops[..n]), ops[n]);
    }
  }

  /** All ancestors of a task that was ever claimed are completed. */
  lemma {:induction false} ClaimedAncestors(s: Db, p: seq<Id>, i: nat)
    requires Tables(s) && DepPath(s.tasks, p) && 0 < i < |p|
    requires s.tasks[p[0]].attempts > 0
    ensures s.tasks[p[i]].status == Completed
    decreases i
  {
    if i > 1 { ClaimedAncestors(s, p, i - 1); }
    assert ParentsOk(s.tasks, s.tasks[p[i - 1]]);
    assert RowOk(s.tasks[p[i - 1]]);
  }

  /** And they stay so for the rest of the run. */
  lemma AncestorsCompletedFromThenOn(ops: seq<Op>, n: nat, p: seq<Id>, i: nat)
    requires Run(EMPTY, ops) && n <= |ops| && DepPath(State(EMPTY, ops[..n]).tasks, p) && 0 < i < |p|
    requires State(EMPTY, ops[..n]).tasks[p[0]].attempts > 0
    ensures p[i] in State(EMPTY, ops).tasks && State(EMPTY, ops).tasks[p[i]].status == Completed
  {
    Segment(EMPTY, ops, n, |ops|);
    assert ops[..|ops|] == ops;
    Split(EMPTY, ops, n);
    Reachable(ops[..n]);
    ClaimedAncestors(State(EMPTY, ops[..n]), p, i);
  }

  // The order of events

  ghost predicate CompletedBefore(events: seq<Event>, d: Id, j: int) {
    exists i :: 0 <= i < j && i < |events| && events[i].task == d && events[i].action == ReportedCompleted
  }

  predicate ClaimOf(s: Db, j: int, d: Id) {
    && 0 <= j < |s.events| && s.events[j].action == Claimed && s.events[j].task in s.tasks
    && d in s.tasks[s.events[j].task].request.deps
  }

  /** Every `claimed` event comes after a `completed` event of each parent. */
  ghost predicate ParentsLoggedFirst(s: Db) {
    forall j, d :: ClaimOf(s, j, d) ==> CompletedBefore(s.events, d, j)
  }

  lemma {:induction false} WordMember(events: seq<Event>, id: Id, k: nat) returns (i: nat)
    requires k < |Word(events, id)|
    ensures i < |events| && events[i] == Word(events, id)[k] && events[i].task == id
    decreases |events|
  {
    var n := |events| - 1;
    if k < |Word(events[..n], id)| {
      i := WordMember(events[..n], id, k);
    } else {
      i := n;
    }
  }

  lemma CompletedIsLogged(s: Db, d: Id)
    requires Logged(s) && d in s.tasks && s.tasks[d].status == Completed
    ensures CompletedBefore(s.events, d, |s.events|)
  {
    var word := Word(s.events, d);
    assert Spells(Actions(word), s.tasks[d]);
    var k := |word| - 1;
    assert Actions(word)[k] == ReportedCompleted;
    var i := WordMember(s.events, d, k);
  }

  lemma CompletedBeforeMore(events: seq<Event>, more: seq<Event>, d: Id, j: int)
    requires CompletedBefore(events, d, j)
    ensures CompletedBefore(events + more, d, j)
  {
    var i :| 0 <= i < j && i < |events| && events[i].task == d && events[i].action == ReportedCompleted;
    assert (events + more)[i] == events[i];
  }

  /** A claim found in the log after an operation was there before, or is the one just made. */
  lemma ClaimOfBefore(s: Db, op: Op, j: int, d: Id)
    requires Logged(s) && Guard(s, op) && ClaimOf(Apply(s, op), j, d)
    ensures j < |s.events| ==> ClaimOf(s, j, d)
    ensures j >= |s.events| ==> op.Take? && j == |s.events| && d in s.tasks[op.id].request.deps
  {
    if j < |s.events| {
      assert Apply(s, op).events[j] == s.events[j] && s.events[j] in s.events;
    }
  }

  lemma StepParentsFirst(s: Db, op: Op)
    requires Inv(s) && Guard(s, op) && ParentsLoggedFirst(s)
    ensures ParentsLoggedFirst(Apply(s, op))
  {
    var t := Apply(s, op);
    forall j, d | ClaimOf(t, j, d) ensures CompletedBefore(t.events, d, j) {
      ClaimOfBefore(s, op, j, d);
      if j >= |s.events| {
        assert ParentsOk(s.tasks, s.tasks[op.id]);
        CompletedIsLogged(s, d);
      }
      CompletedBeforeMore(s.events, Emits(RowBefore(s, op), op), d, j);
    }
  }

  lemma {:induction false} ParentsFirst(ops: seq<Op>)
    requires Run(EMPTY, ops)
    ensures ParentsLoggedFirst(State(EMPTY, ops))
    decreases |ops|
  {
    if ops == [] {
    } else {
      var n := |ops| - 1;
      ParentsFirst(ops[..n]);
      Reachable(ops[..n]);
      StepParentsFirst(State(EMPTY, ops[..n]), ops[n]);
    }
  }

  // Failure propagation

  /** Whatever depends, directly or not, on a failed task was never claimed. */
  lemma DoomedUnclaimed(s: Db, p: seq<Id>)
    requires Tables(s) && DepPath(s.tasks, p) && |p| >= 2 && s.tasks[p[|p| - 1]].status == Failed
    ensures s.tasks[p[0]].attempts == 0
    ensures s.tasks[p[0]].status == Pending || s.tasks[p[0]].status == Failed
  {
    assert RowOk(s.tasks[p[0]]);
    if s.tasks[p[0]].attempts > 0 { ClaimedAncestors(s, p, |p| - 1); }
  }

  predicate Blocked(s: Db, id: Id) {
    id in s.tasks && s.tasks[id].status == Pending && SomeParentFailed(s.tasks, s.tasks[id])
  }

  /** Every descendant of a failed task has failed. */
  ghost predicate Settled(s: Db) {
    forall p :: DepPath(s.tasks, p) && |p| >= 2 && s.tasks[p[|p| - 1]].status == Failed ==>
      s.tasks[p[0]].status == Failed
  }

  lemma {:induction false} UnblockedPath(s: Db, p: seq<Id>)
    requires Tables(s) && DepPath(s.tasks, p) && |p| >= 2 && s.tasks[p[|p| - 1]].status == Failed
    requires forall id :: !Blocked(s, id)
    ensures s.tasks[p[0]].status == Failed
    decreases |p|
  {
    if |p| > 2 {
      var q := p[1..];
      assert DepPath(s.tasks, q) by {
        forall i | 0 <= i < |q| - 1 ensures q[i + 1] in s.tasks[q[i]].request.deps {
          assert q[i] == p[i + 1] && q[i + 1] == p[i + 2];
        }
      }
      UnblockedPath(s, q);
    }
    assert p[1] in s.tasks[p[0]].request.deps && s.tasks[p[1]].status == Failed;
    DoomedUnclaimed(s, p);
    assert !Blocked(s, p[0]);
  }

  lemma BlockedUnsettled(s: Db, id: Id)
    requires Blocked(s, id)
    ensures !Settled(s)
  {
    var d :| d in s.tasks[id].request.deps && d in s.tasks && s.tasks[d].status == Failed;
    var p := [id, d];
    assert DepPath(s.tasks, p) && p[0] == id && p[|p| - 1] == d;
  }

  /** The propagation statement has nothing left to do exactly when the failure has reached every descendant. */
  lemma SettledIff(s: Db)
    requires Tables(s)
    ensures Settled(s) <==> forall id :: !Blocked(s, id)
  {
    if forall id :: !Blocked(s, id) {
      forall p | DepPath(s.tasks, p) && |p| >= 2 && s.tasks[p[|p| - 1]].status == Failed
        ensures s.tasks[p[0]].status == Failed
      {
        UnblockedPath(s, p);
      }
    } else {
      var id :| Blocked(s, id);
      BlockedUnsettled(s, id);
    }
  }
}
