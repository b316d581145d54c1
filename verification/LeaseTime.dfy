/**
 Leases against the clock of an interleaved server: every lease test of a
 committed call was made inside the lock window of its row, and no lease is taken
 away before it has run out (internal/queue/store.go:220-257, 277-325).
 */
module LeaseTime {
  import opened Tasks
  import opened TaskLog
  import opened Leases
  import opened Requests
  import opened Transactions
  import opened Sql
  import opened Refinement
  import opened Serializability

  // One call of an atomic execution

  /** Where call `k` starts and what it does there. */
  lemma {:induction false} SerialAt(history: seq<Done>, lease: Time, k: nat)
    requires Serial(EMPTY, history, lease) && k < |history|
    ensures Serial(EMPTY, history[..k], lease)
    ensures Commits(After(EMPTY, history[..k]), history[k].what.call, lease, history[k].ops, history[k].what.reply)
    ensures After(EMPTY, history[..k + 1]) == State(After(EMPTY, history[..k]), history[k].ops)
    decreases |history|
  {
    hide Commits, State;
    var n := |history| - 1;
    if k == n {
      assert history[..k + 1] == history;
    } else {
      SerialAt(history[..n], lease, k);
      assert history[..n][..k] == history[..k] && history[..n][..k + 1] == history[..k + 1];
    }
  }

  lemma CommitsRun(s: Db, call: Call, lease: Time, ops: seq<Op>, reply: Reply)
    requires Commits(s, call, lease, ops, reply)
    ensures Run(s, ops)
  {
    hide Run, State;
  }

  lemma TimelyAt(history: seq<Done>, lease: Time, k: nat)
    requires AllTimely(history, lease) && k < |history|
    ensures Timely(history[k], lease)
  {
    hide Timely;
  }

  /** A committed heartbeat or report owned the row at a reading taken while it held the row. */
  lemma FencedInWindow(history: seq<Done>, lease: Time, k: nat) returns (now: Time)
    requires Serial(EMPTY, history, lease) && AllTimely(history, lease)
    requires k < |history| && history[k].what.call.LeaseCall?
    ensures var c, s := history[k].what, After(EMPTY, history[..k]);
      && c.call.id in c.held && c.begun <= c.held[c.call.id] <= now <= c.at
      && c.call.id in s.tasks && Owned(s.tasks[c.call.id], c.call.worker, c.call.token, now)
  {
    hide Serial, After, AllTimely, ValidObject;
    SerialAt(history, lease, k);
    TimelyAt(history, lease, k);
    var s, d := After(EMPTY, history[..k]), history[k];
    RunPrefix(s, d.ops, 0);
    assert d.ops[..0] == [];
    now := d.ops[0].now;
  }

  /** A committed Claim expired a lease only if it had run out at a reading taken while it held the row. */
  lemma ExpiredInWindow(history: seq<Done>, lease: Time, k: nat, i: nat)
    requires Serial(EMPTY, history, lease) && AllTimely(history, lease)
    requires k < |history| && i < |history[k].ops| && history[k].ops[i].Expire?
    ensures var c, op, s := history[k].what, history[k].ops[i], State(After(EMPTY, history[..k]), history[k].ops[..i]);
      && op.id in c.held && c.begun <= c.held[op.id] <= op.now <= c.at
      && op.id in s.tasks && Expired(s.tasks[op.id], op.now)
  {
    hide Serial, After, AllTimely, State, Run, Commits;
    SerialAt(history, lease, k);
    TimelyAt(history, lease, k);
    var s, d := After(EMPTY, history[..k]), history[k];
    CommitsRun(s, d.what.call, lease, d.ops, d.what.reply);
    RunPrefix(s, d.ops, i);
  }

  // How far ahead a lease can reach

  /** A run leaves a lease as it was or sets one that starts before the run is committed. */
  lemma {:induction false} RunLease(s: Db, ops: seq<Op>, held: map<Id, Time>, at: Time, lease: Time, id: Id)
    requires Run(s, ops) && InWindow(held, at, ops, lease)
    requires id in State(s, ops).tasks && State(s, ops).tasks[id].leaseUntil.Some?
    ensures (id in s.tasks && s.tasks[id].leaseUntil == State(s, ops).tasks[id].leaseUntil)
         || (id in held && State(s, ops).tasks[id].leaseUntil.value <= at + lease)
    decreases |ops|
  {
    if ops == [] {
    } else {
      var n := |ops| - 1;
      var t := State(s, ops[..n]);
      LastLease(t, ops[n], held, at, lease, id);
      assert InWindow(held, at, ops[..n], lease);
      if id in t.tasks && t.tasks[id].leaseUntil.Some? { RunLease(s, ops[..n], held, at, lease, id); }
    }
  }

  lemma LastLease(t: Db, op: Op, held: map<Id, Time>, at: Time, lease: Time, id: Id)
    requires Guard(t, op) && op.id in held && Timed(op, held[op.id], at, lease)
    requires id in Apply(t, op).tasks && Apply(t, op).tasks[id].leaseUntil.Some?
    ensures (id in t.tasks && t.tasks[id].leaseUntil == Apply(t, op).tasks[id].leaseUntil)
         || (id in held && Apply(t, op).tasks[id].leaseUntil.value <= at + lease)
  {
  }

  /** Every lease was granted by an earlier call and ends at most `lease` after that call's commit. */
  lemma {:induction false} LeaseGranted(history: seq<Done>, lease: Time, k: nat, id: Id) returns (j: nat)
    requires Serial(EMPTY, history, lease) && AllTimely(history, lease) && k <= |history|
    requires id in After(EMPTY, history[..k]).tasks && After(EMPTY, history[..k]).tasks[id].leaseUntil.Some?
    ensures j < k && id in history[j].what.held
    ensures After(EMPTY, history[..k]).tasks[id].leaseUntil.value <= history[j].what.at + lease
    decreases k
  {
    hide Serial, AllTimely, State, Run, Commits;
    if k == 0 {
      assert false;
    } else {
      hide After;
      SerialAt(history, lease, k - 1);
      TimelyAt(history, lease, k - 1);
      var s, d := After(EMPTY, history[..k - 1]), history[k - 1];
      CommitsRun(s, d.what.call, lease, d.ops, d.what.reply);
      RunLease(s, d.ops, d.what.held, d.what.at, lease, id);
      j := k - 1;
      if id in s.tasks && s.tasks[id].leaseUntil == State(s, d.ops).tasks[id].leaseUntil {
        j := LeaseGranted(history, lease, k - 1, id);
      }
    }
  }

  // No lease is lost early

  /** Leased under this token until at least `until`. */
  predicate Stays(row: Row, token: string, until: Time) {
    row.status == Running && row.token == token && row.leaseUntil.Some? && row.leaseUntil.value >= until
  }

  predicate NoReports(ops: seq<Op>, id: Id) {
    forall i :: 0 <= i < |ops| && ops[i].id == id ==> !ops[i].Beat? && !ops[i].Finish?
  }

  /** Before a lease has run out nothing but its owner touches the row. */
  lemma {:induction false} Untaken(s: Db, ops: seq<Op>, held: map<Id, Time>, at: Time, lease: Time,
                                   id: Id, token: string, until: Time)
    requires Run(s, ops) && InWindow(held, at, ops, lease) && NoReports(ops, id) && at < until
    requires id in s.tasks && Stays(s.tasks[id], token, until)
    ensures id in State(s, ops).tasks && State(s, ops).tasks[id] == s.tasks[id]
    decreases |ops|
  {
    if ops == [] {
    } else {
      var n := |ops| - 1;
      assert InWindow(held, at, ops[..n], lease) && NoReports(ops[..n], id);
      Untaken(s, ops[..n], held, at, lease, id, token, until);
    }
  }

  /** A report that finished the task under this token. */
  predicate Reported(c: Commitment, row: Row, id: Id, token: string) {
    && c.call.LeaseCall? && c.call.action != Heartbeat && c.call.id == id && c.call.token == token
    && c.reply == Updated(id) && row.status == (if c.call.action == Complete then Completed else Failed)
  }

  lemma OthersReportNothing(s: Db, call: Call, lease: Time, ops: seq<Op>, reply: Reply, id: Id)
    requires Commits(s, call, lease, ops, reply) && !(call.LeaseCall? && call.id == id)
    ensures NoReports(ops, id)
  {
    hide Run, State, ValidObject;
  }

  lemma OwnerStays(s: Db, d: Done, lease: Time, token: string, until: Time)
    requires d.what.call.LeaseCall? && Commits(s, d.what.call, lease, d.ops, d.what.reply) && Timely(d, lease)
    requires d.what.call.id in s.tasks && Stays(s.tasks[d.what.call.id], token, until)
    requires d.what.call.id in d.what.held ==>
      s.tasks[d.what.call.id].leaseUntil.value <= d.what.held[d.what.call.id] + lease
    ensures var id := d.what.call.id; var t := State(s, d.ops);
      && id in t.tasks && (Stays(t.tasks[id], token, until) || Reported(d.what, t.tasks[id], id, token))
  {
    hide ValidObject;
    assert d.ops[..0] == [];
  }

  /** One call: the lease stays, or the call is its owner's report. */
  lemma CallStays(s: Db, d: Done, lease: Time, id: Id, token: string, until: Time)
    requires Commits(s, d.what.call, lease, d.ops, d.what.reply) && Timely(d, lease) && d.what.at < until
    requires id in s.tasks && Stays(s.tasks[id], token, until)
    requires id in d.what.held ==> s.tasks[id].leaseUntil.value <= d.what.held[id] + lease
    ensures var t := State(s, d.ops);
      id in t.tasks && (Stays(t.tasks[id], token, until) || Reported(d.what, t.tasks[id], id, token))
  {
    hide Run, State, Commits, InWindow;
    if d.what.call.LeaseCall? && d.what.call.id == id {
      OwnerStays(s, d, lease, token, until);
    } else {
      CommitsRun(s, d.what.call, lease, d.ops, d.what.reply);
      OthersReportNothing(s, d.what.call, lease, d.ops, d.what.reply, id);
      Untaken(s, d.ops, d.what.held, d.what.at, lease, id, token, until);
    }
  }

  /** What has become of a lease after calls `m` to `k`. */
  ghost predicate KeptOrReported(history: seq<Done>, m: nat, k: nat, id: Id, token: string, until: Time)
    requires m <= k <= |history|
  {
    var tasks := After(EMPTY, history[..k]).tasks;
    && id in tasks
    && (Stays(tasks[id], token, until) || exists j :: m <= j < k && Reported(history[j].what, tasks[id], id, token))
  }

  lemma {:induction false} HistoryStays(history: seq<Done>, lease: Time, clock: Time, m: nat, k: nat, id: Id,
                                        token: string, until: Time)
    requires Serial(EMPTY, history, lease) && AllTimely(history, lease) && InTurn(Outcomes(history), clock)
    requires m <= k <= |history| && clock < until && KeptOrReported(history, m, m, id, token, until)
    ensures KeptOrReported(history, m, k, id, token, until)
    decreases k
  {
    hide Serial, AllTimely, After, State, Commits, InTurn, Timely, Run, Outcomes;
    if k == m {
    } else {
      HistoryStays(history, lease, clock, m, k - 1, id, token, until);
      SerialAt(history, lease, k - 1);
      TimelyAt(history, lease, k - 1);
      var s, d := After(EMPTY, history[..k - 1]), history[k - 1];
      if Stays(s.tasks[id], token, until) {
        GrantedBefore(history, lease, clock, k - 1, id);
        CallStays(s, d, lease, id, token, until);
      } else {
        CommitsRun(s, d.what.call, lease, d.ops, d.what.reply);
        RunEvolves(s, d.ops);
      }
    }
  }

  /** A call that holds the row took its lock after the lease it finds was granted. */
  lemma GrantedBefore(history: seq<Done>, lease: Time, clock: Time, k: nat, id: Id)
    requires Serial(EMPTY, history, lease) && AllTimely(history, lease) && InTurn(Outcomes(history), clock)
    requires k < |history| && id in After(EMPTY, history[..k]).tasks
    requires After(EMPTY, history[..k]).tasks[id].leaseUntil.Some?
    ensures history[k].what.at <= clock
    ensures id in history[k].what.held ==>
      After(EMPTY, history[..k]).tasks[id].leaseUntil.value <= history[k].what.held[id] + lease
  {
    hide Serial, AllTimely, After;
    var j := LeaseGranted(history, lease, k, id);
    assert Outcomes(history)[j] == history[j].what && Outcomes(history)[k] == history[k].what;
  }

  /**
   While the clock has not reached the end of a lease, the task is still leased
   under that token, at least as long, or the owner has reported it finished.
   */
  lemma NoEarlyLoss(steps: seq<Step>, lease: Time, i: nat, id: Id)
    requires Legal(steps, lease) && i <= |steps| && Legal(steps[..i], lease)
    requires id in Exec(steps[..i], lease).rows && Exec(steps[..i], lease).rows[id].status == Running
    requires Exec(steps[..i], lease).rows[id].leaseUntil.Some?
    requires Exec(steps, lease).clock < Exec(steps[..i], lease).rows[id].leaseUntil.value
    ensures var row, rows := Exec(steps[..i], lease).rows[id], Exec(steps, lease).rows;
      var order, m := CommitOrder(steps, lease), |CommitOrder(steps[..i], lease)|;
      && id in rows
      && (Stays(rows[id], row.token, row.leaseUntil.value)
          || exists j :: m <= j < |order| && Reported(order[j], rows[id], id, row.token))
  {
    hide Legal, Exec, CommitOrder, Serial, AllTimely, InTurn, After, Visible, Word;
    var history := Serializable(steps, lease);
    assert TracksAt(steps, i, history, lease);
    var row, m, n := Exec(steps[..i], lease).rows[id], |CommitOrder(steps[..i], lease)|, |history|;
    var token, until := row.token, row.leaseUntil.value;
    assert history[..n] == history;
    HistoryStays(history, lease, Exec(steps, lease).clock, m, n, id, token, until);
    var rows := Exec(steps, lease).rows;
    if !Stays(rows[id], token, until) {
      var j :| m <= j < n && Reported(history[j].what, rows[id], id, token);
      assert Outcomes(history)[j] == history[j].what;
    }
  }
}
