/**
 Fencing and termination over whole runs: who may extend or finish a claim, how
 often a claim can end, and how many transitions a run can make
 (internal/queue/store.go:219-325).
 */
module Leases {
  import opened Basics
  import opened Tasks
  import opened TaskLog

  // The current claim of a task, read off the history alone

  datatype Generation = NoLease | Lease(worker: string, token: string, until: Time)

  function Current(ops: seq<Op>, id: Id): Generation {
    if ops == [] then NoLease
    else
      var before, op := Current(ops[..|ops| - 1], id), ops[|ops| - 1];
      if op.id != id then before
      else match op
        case Take(_, worker, token, _, until) => Lease(worker, token, until)
        case Beat(_, _, _, _, until) => if before.Lease? then before.(until := until) else NoLease
        case _ => NoLease
  }

  predicate Holds(row: Row, g: Generation) {
    if row.status == Running
    then g.Lease? && row.worker == g.worker && row.token == g.token && row.leaseUntil == Some(g.until)
    else g.NoLease?
  }

  lemma {:induction false} CurrentIsRow(ops: seq<Op>, id: Id)
    requires Run(EMPTY, ops)
    ensures id in State(EMPTY, ops).tasks ==> Holds(State(EMPTY, ops).tasks[id], Current(ops, id))
    ensures id !in State(EMPTY, ops).tasks ==> Current(ops, id) == NoLease
    decreases |ops|
  {
    if ops == [] {
    } else {
      CurrentIsRow(ops[..|ops| - 1], id);
    }
  }

  /**
   A heartbeat or a report is accepted exactly when it names the worker and the
   token of the task's current claim and that claim's lease has not run out.
   */
  lemma Fence(ops: seq<Op>, op: Op)
    requires Run(EMPTY, ops)
    requires op.Beat? || op.Finish?
    requires op.worker != "" && op.token != ""
    ensures Guard(State(EMPTY, ops), op)
        <==> (Current(ops, op.id).Lease? && Current(ops, op.id).worker == op.worker
              && Current(ops, op.id).token == op.token && op.now < Current(ops, op.id).until)
  {
    hide Run, State, Current;
    CurrentIsRow(ops, op.id);
  }

  /** The current claim goes back to one Take, after which only heartbeats touched the row. */
  lemma {:induction false} CurrentTake(ops: seq<Op>, id: Id) returns (i: nat)
    requires Current(ops, id).Lease?
    ensures i < |ops| && ops[i].Take? && ops[i].id == id
    ensures ops[i].worker == Current(ops, id).worker && ops[i].token == Current(ops, id).token
    ensures forall k :: i < k < |ops| && ops[k].id == id ==> ops[k].Beat?
    decreases |ops|
  {
    var n := |ops| - 1;
    if ops[n].id == id && ops[n].Take? {
      i := n;
    } else {
      i := CurrentTake(ops[..n], id);
      forall k | i < k < |ops| && ops[k].id == id ensures ops[k].Beat? {
        if k < n { assert ops[k] == ops[..n][k]; }
      }
    }
  }

  lemma RunPrefix(s: Db, ops: seq<Op>, i: nat)
    requires Run(s, ops) && i < |ops|
    ensures Run(s, ops[..i]) && Guard(State(s, ops[..i]), ops[i])
  {
    Split(s, ops, i + 1);
    assert ops[..i + 1][..i] == ops[..i];
  }

  /** Between two points of a run the tables only evolve. */
  lemma Segment(s: Db, ops: seq<Op>, i: nat, j: nat)
    requires Run(s, ops) && i <= j <= |ops|
    ensures Run(State(s, ops[..i]), ops[i..j])
    ensures State(s, ops[..j]) == State(State(s, ops[..i]), ops[i..j])
    ensures Evolves(State(s, ops[..i]).tasks, State(s, ops[..j]).tasks)
    ensures State(s, ops[..i]).issued <= State(s, ops[..j]).issued
  {
    Split(s, ops, j);
    Split(s, ops[..j], i);
    assert ops[..j][..i] == ops[..i];
    assert ops[..j][i..] == ops[i..j];
    RunEvolves(State(s, ops[..i]), ops[i..j]);
  }

  lemma TakeIssues(s: Db, ops: seq<Op>, i: nat)
    requires i < |ops| && ops[i].Take?
    ensures ops[i].token in State(s, ops[..i + 1]).issued
  {
    assert ops[..i + 1] == ops[..i] + [ops[i]];
    Snoc(s, ops[..i], ops[i]);
  }

  /** No two claims of a run carry the same token. */
  lemma TokensNeverRepeat(ops: seq<Op>, i: nat, j: nat)
    requires Run(EMPTY, ops) && i < j < |ops| && ops[i].Take? && ops[j].Take?
    ensures ops[i].token != ops[j].token
  {
    hide Run, State;
    UnusedBefore(ops, j);
    IssuedSince(ops, i, j);
  }

  lemma UnusedBefore(ops: seq<Op>, j: nat)
    requires Run(EMPTY, ops) && j < |ops| && ops[j].Take?
    ensures ops[j].token !in State(EMPTY, ops[..j]).issued
  {
    hide Run, State;
    RunPrefix(EMPTY, ops, j);
  }

  lemma IssuedSince(ops: seq<Op>, i: nat, j: nat)
    requires Run(EMPTY, ops) && i < j <= |ops| && ops[i].Take?
    ensures ops[i].token in State(EMPTY, ops[..j]).issued
  {
    hide Run, State, Evolves;
    TakeIssues(EMPTY, ops, i);
    IssuedGrows(EMPTY, ops, i + 1, j);
  }

  lemma IssuedGrows(s: Db, ops: seq<Op>, i: nat, j: nat)
    requires Run(s, ops) && i <= j <= |ops|
    ensures State(s, ops[..i]).issued <= State(s, ops[..j]).issued
  {
    hide Run, State, Evolves;
    Segment(s, ops, i, j);
  }

  /** Any accepted heartbeat, report or expiry acts on a claim made earlier and not ended since. */
  lemma ActsOnOpenClaim(ops: seq<Op>, j: nat) returns (i: nat)
    requires Run(EMPTY, ops) && j < |ops| && (ops[j].Beat? || ops[j].Finish? || ops[j].Expire?)
    ensures i < j && ops[i].Take? && ops[i].id == ops[j].id
    ensures !ops[j].Expire? ==> ops[i].worker == ops[j].worker && ops[i].token == ops[j].token
    ensures forall k :: i < k < j && ops[k].id == ops[j].id ==> ops[k].Beat?
  {
    RunPrefix(EMPTY, ops, j);
    CurrentIsRow(ops[..j], ops[j].id);
    i := CurrentTake(ops[..j], ops[j].id);
    forall k | i < k < j && ops[k].id == ops[j].id ensures ops[k].Beat? {
      assert ops[k] == ops[..j][k];
    }
  }

  predicate Ends(op: Op) { op.Expire? || op.Finish? }

  /** Each claim ends at most once: between two endings of a task lies another claim, with another token. */
  lemma EndsOnce(ops: seq<Op>, j: nat, k: nat) returns (i: nat)
    requires Run(EMPTY, ops) && j < k < |ops| && ops[j].id == ops[k].id && Ends(ops[j]) && Ends(ops[k])
    ensures j < i < k && ops[i].Take? && ops[i].id == ops[k].id
    ensures ops[j].Finish? ==> ops[i].token != ops[j].token
    ensures ops[j].Finish? && ops[k].Finish? ==> ops[j].token != ops[k].token
  {
    i := ActsOnOpenClaim(ops, k);
    var h := ActsOnOpenClaim(ops, j);
    assert i > j;
    TokensNeverRepeat(ops, h, i);
  }

  /** Once a row is completed or failed, nothing a run does changes it again. */
  lemma TerminalForever(ops: seq<Op>, i: nat, id: Id)
    requires Run(EMPTY, ops) && i <= |ops|
    requires id in State(EMPTY, ops[..i]).tasks && State(EMPTY, ops[..i]).tasks[id].Terminal()
    ensures id in State(EMPTY, ops).tasks && State(EMPTY, ops).tasks[id] == State(EMPTY, ops[..i]).tasks[id]
    ensures forall k :: i <= k < |ops| ==> ops[k].id != id
  {
    hide Run, State, Guard;
    Segment(EMPTY, ops, i, |ops|);
    assert ops[..|ops|] == ops;
    forall k | i <= k < |ops| ensures ops[k].id != id {
      Segment(EMPTY, ops, i, k);
      RunPrefix(EMPTY, ops, k);
      TerminalUntouched(State(EMPTY, ops[..k]), ops[k], id);
    }
  }

  lemma TerminalUntouched(s: Db, op: Op, id: Id)
    requires Guard(s, op) && id in s.tasks && s.tasks[id].Terminal()
    ensures op.id != id
  {
  }

  // Results

  /** The result last reported for a task, read off the history alone. */
  function LastResult(ops: seq<Op>, id: Id): string {
    if ops == [] then "{}"
    else
      var op := ops[|ops| - 1];
      if op.Finish? && op.id == id then op.result else LastResult(ops[..|ops| - 1], id)
  }

  lemma {:induction false} LastResultIsRow(ops: seq<Op>, id: Id)
    requires Run(EMPTY, ops) && id in State(EMPTY, ops).tasks
    ensures State(EMPTY, ops).tasks[id].result == LastResult(ops, id)
    decreases |ops|
  {
    if ops == [] {
    } else {
      var before, op := ops[..|ops| - 1], ops[|ops| - 1];
      if id in State(EMPTY, before).tasks {
        LastResultIsRow(before, id);
      } else {
        NotYetReported(before, id);
      }
    }
  }

  lemma {:induction false} NotYetReported(ops: seq<Op>, id: Id)
    requires Run(EMPTY, ops) && id !in State(EMPTY, ops).tasks
    ensures LastResult(ops, id) == "{}"
    decreases |ops|
  {
    if ops == [] {
    } else {
      NotYetReported(ops[..|ops| - 1], id);
    }
  }

  lemma {:induction false} LastResultFound(ops: seq<Op>, id: Id, k: nat)
    requires k < |ops| && ops[k].Finish? && ops[k].id == id
    requires forall i :: k < i < |ops| && ops[i].id == id ==> !ops[i].Finish?
    ensures LastResult(ops, id) == ops[k].result
    decreases |ops|
  {
    if k == |ops| - 1 {
    } else {
      LastResultFound(ops[..|ops| - 1], id, k);
    }
  }

  lemma {:induction false} LastResultNone(ops: seq<Op>, id: Id)
    requires forall i :: 0 <= i < |ops| && ops[i].id == id ==> !ops[i].Finish?
    ensures LastResult(ops, id) == "{}"
    decreases |ops|
  {
    if ops == [] {
    } else {
      LastResultNone(ops[..|ops| - 1], id);
    }
  }

  /** A reported task has the result and the status of its one report; nothing else ever sets a result. */
  lemma ResultReported(ops: seq<Op>, id: Id, k: nat)
    requires Run(EMPTY, ops) && k < |ops| && ops[k].Finish? && ops[k].id == id
    ensures id in State(EMPTY, ops).tasks && State(EMPTY, ops).tasks[id].result == ops[k].result
    ensures State(EMPTY, ops).tasks[id].status == if ops[k].ok then Completed else Failed
    ensures forall i :: k < i < |ops| ==> ops[i].id != id
  {
    hide Run, State, LastResult;
    RunPrefix(EMPTY, ops, k);
    assert ops[..k + 1] == ops[..k] + [ops[k]];
    Snoc(EMPTY, ops[..k], ops[k]);
    ReportedRow(State(EMPTY, ops[..k]), ops[k]);
    TerminalForever(ops, k + 1, id);
    LastResultIsRow(ops, id);
    LastResultFound(ops, id, k);
  }

  lemma ReportedRow(s: Db, op: Op)
    requires Guard(s, op) && op.Finish?
    ensures var t := Apply(s, op).tasks;
      op.id in t && t[op.id].Terminal() && t[op.id].status == if op.ok then Completed else Failed
  {
  }

  lemma ResultUnreported(ops: seq<Op>, id: Id)
    requires Run(EMPTY, ops) && id in State(EMPTY, ops).tasks
    requires forall i :: 0 <= i < |ops| && ops[i].id == id ==> !ops[i].Finish?
    ensures State(EMPTY, ops).tasks[id].result == "{}" && State(EMPTY, ops).tasks[id].status != Completed
  {
    hide Run, State;
    LastResultIsRow(ops, id);
    LastResultNone(ops, id);
    UnreportedIsOpen(ops, id);
  }

  lemma {:induction false} UnreportedIsOpen(ops: seq<Op>, id: Id)
    requires Run(EMPTY, ops) && id in State(EMPTY, ops).tasks
    requires forall i :: 0 <= i < |ops| && ops[i].id == id ==> !ops[i].Finish?
    ensures State(EMPTY, ops).tasks[id].status != Completed
    decreases |ops|
  {
    if ops == [] {
    } else {
      var before := ops[..|ops| - 1];
      if id in State(EMPTY, before).tasks { UnreportedIsOpen(before, id); }
    }
  }

  // Termination

  /** Transitions a row can still make, counting the claims it has left. */
  function Weight(row: Row): nat {
    if row.Terminal() || !(0 <= row.attempts <= row.request.maxAttempts <= 5) then 0
    else if row.status == Pending then 2 * (row.request.maxAttempts - row.attempts) + 1
    else 2 * (row.request.maxAttempts - row.attempts) + 2
  }

  ghost function Measure(s: Db): nat { Sum(s.tasks, Weight) }

  function Transitions(ops: seq<Op>): nat {
    if ops == [] then 0
    else Transitions(ops[..|ops| - 1]) + (if ops[|ops| - 1].Beat? then 0 else 1)
  }

  lemma WeightDrops(row: Row, op: Op)
    requires RowOk(row) && RowGuard(row, op)
    ensures op.Beat? ==> Weight(NextRow(row, op)) == Weight(row)
    ensures !op.Beat? ==> Weight(NextRow(row, op)) < Weight(row)
  {
  }

  lemma StepMeasure(s: Db, op: Op)
    requires Tables(s) && Guard(s, op) && !op.Insert?
    ensures op.Beat? ==> Measure(Apply(s, op)) == Measure(s)
    ensures !op.Beat? ==> Measure(Apply(s, op)) < Measure(s)
  {
    var row := s.tasks[op.id];
    WeightDrops(row, op);
    SumUpdate(s.tasks, Weight, op.id, NextRow(row, op));
  }

  lemma MeasureBound(s: Db)
    requires Inv(s)
    ensures Measure(s) <= 11 * |s.tasks|
  {
    hide Logged, Conserved;
    forall id | id in s.tasks ensures Weight(s.tasks[id]) <= 11 { assert RowOk(s.tasks[id]); }
    SumBound(s.tasks, Weight, 11);
  }

  /** Without new tasks a run makes at most Measure(s) transitions, and that is at most 11 per task. */
  lemma {:induction false} BoundedTransitions(s: Db, ops: seq<Op>)
    requires Inv(s) && Run(s, ops)
    requires forall op :: op in ops ==> !op.Insert?
    ensures Inv(State(s, ops))
    ensures Transitions(ops) + Measure(State(s, ops)) <= Measure(s) <= 11 * |s.tasks|
    decreases |ops|
  {
    MeasureBound(s);
    if ops == [] {
    } else {
      var n := |ops| - 1;
      BoundedTransitions(s, ops[..n]);
      StepMeasure(State(s, ops[..n]), ops[n]);
      StepInv(State(s, ops[..n]), ops[n]);
    }
  }
}
