/**
 Failure propagation on the interleaved server: without new tasks, Claims that
 meet no other transaction finish it, whatever happens between them
 (internal/queue/store.go:219-275).
 */
module ClaimRounds {
  import opened Basics
  import opened Tasks
  import opened TaskLog
  import opened Dependencies
  import opened Transactions
  import opened Batches
  import opened Sql
  import opened Refinement
  import opened Simulation
  import opened Serializability
  import opened Uncontended

  // Tasks that no one has claimed, counted on the committed rows

  ghost function Unclaimed(rows: map<Id, Row>): nat { Sum(rows, Waiting()) }

  /** Every descendant of a failed task has failed. */
  ghost predicate SettledRows(rows: map<Id, Row>) { Settled(Db(rows, [], {})) }

  predicate NoCreateOpen(f: Server) { forall tx :: tx in f.live ==> !f.live[tx].call.CreateCall? }

  predicate NoCreate(steps: seq<Step>) {
    forall i :: 0 <= i < |steps| ==> !(steps[i].Begin? && steps[i].call.CreateCall?)
  }

  /** Only a commit changes committed rows. */
  lemma StatementRows(f: Server, step: Step, lease: Time)
    requires !step.Tick? && !step.Begin? && !step.Commit? && step.tx in f.live && TxEnabled(f, step, f.live[step.tx])
    ensures DoTx(f, step, f.live[step.tx], lease).rows == f.rows
  {
    hide Qualifies, Visits, Lockable, Rewritten, RecoveryEvents, PropagationEvents, PendingEvent, ReplyAfterLog,
      Leased, Finished, KeyTaken, Owned, Existing, Hold;
  }

  /** No statement opens a transaction or changes its call. */
  lemma StatementCalls(f: Server, step: Step, lease: Time, x: TxId)
    requires !step.Tick? && !step.Begin? && step.tx in f.live && TxEnabled(f, step, f.live[step.tx])
    ensures var g := DoTx(f, step, f.live[step.tx], lease);
      x in g.live ==> x in f.live && g.live[x].call == f.live[x].call
  {
    hide Qualifies, Visits, Lockable, Rewritten, RecoveryEvents, PropagationEvents, PendingEvent, ReplyAfterLog,
      Leased, Finished, KeyTaken, Owned, Existing, Hold;
  }

  lemma CommittedNoInsert(a: Db, call: Call, lease: Time, ops: seq<Op>, reply: Reply)
    requires Commits(a, call, lease, ops, reply) && !call.CreateCall?
    ensures Run(a, ops) && NoInsert(ops)
  {
    hide Run, State;
  }

  lemma CommitUnclaimed(f: Server, a: Db, h: map<TxId, seq<Op>>, lease: Time, tx: TxId)
    requires tx in f.live && f.live[tx].pc.ReadyToCommit? && !f.live[tx].call.CreateCall?
    requires Simulates(f, a, h, lease)
    ensures Unclaimed(Committed(f, tx, f.live[tx]).rows) <= Unclaimed(f.rows)
  {
    hide Simulates, Commits, State, Run, TxOk, ScanOk, HeldOk, InWindow, Inv;
    Turn(f, a, h, lease, tx);
    SimInv(f, a, h, lease);
    CommitRows(f, a, h, lease, tx);
    CommittedNoInsert(a, f.live[tx].call, lease, h[tx], f.live[tx].pc.reply);
    RunUnclaimed(a, h[tx]);
  }

  lemma StepUnclaimed(f: Server, step: Step, a: Db, h: map<TxId, seq<Op>>, lease: Time)
    requires Enabled(f, step) && NoCreateOpen(f) && NoCreate([step])
    requires Simulates(f, a, h, lease)
    ensures NoCreateOpen(Do(f, step, lease)) && Unclaimed(Do(f, step, lease).rows) <= Unclaimed(f.rows)
  {
    hide Simulates, Unclaimed;
    assert [step][0] == step;
    if !step.Tick? && !step.Begin? {
      forall x | x in Do(f, step, lease).live ensures !Do(f, step, lease).live[x].call.CreateCall? {
        StatementCalls(f, step, lease, x);
      }
      if step.Commit? {
        CommitUnclaimed(f, a, h, lease, step.tx);
      } else {
        StatementRows(f, step, lease);
      }
    }
  }

  lemma {:induction false} StepsUnclaimed(first: seq<Step>, more: seq<Step>, lease: Time)
    requires Legal(first + more, lease) && Legal(first, lease) && NoCreateOpen(Exec(first, lease)) && NoCreate(more)
    ensures NoCreateOpen(Exec(first + more, lease))
    ensures Unclaimed(Exec(first + more, lease).rows) <= Unclaimed(Exec(first, lease).rows)
    decreases |more|
  {
    hide Legal, Exec, Do, Enabled, NoCreateOpen, Unclaimed, Simulates, Serial, Tracks, AllTimely;
    if more == [] {
      assert first + more == first;
    } else {
      var n := |more| - 1;
      var before, step := first + more[..n], more[n];
      assert first + more == before + [step];
      ExecSnoc(before, step, lease);
      StepsUnclaimed(first, more[..n], lease);
      var history, h := Simulated(before, lease);
      StepUnclaimed(Exec(before, lease), step, After(EMPTY, history), h, lease);
    }
  }

  // Rounds

  /** Anything but a new Create, and then a Claim that is alone. */
  datatype ClaimRound = ClaimRound(between: seq<Step>, tx: TxId, worker: string, kind: string, mid: seq<Step>) {
    function Claims(): seq<Step> { [Begin(tx, ClaimCall(worker, kind))] + mid + [Commit(tx)] }

    predicate Valid() { NoCreate(between) && forall i :: 0 <= i < |mid| ==> AloneStep(mid[i], tx) }
  }

  /** The steps before the Claim of round `k`. */
  function Upto(first: seq<Step>, rounds: seq<ClaimRound>, k: nat): seq<Step>
    requires k < |rounds|
  {
    AllSteps(first, rounds[..k]) + rounds[k].between
  }

  function AllSteps(first: seq<Step>, rounds: seq<ClaimRound>): seq<Step> {
    if rounds == [] then first
    else
      var n := |rounds| - 1;
      AllSteps(first, rounds[..n]) + rounds[n].between + rounds[n].Claims()
  }

  ghost predicate Alternates(first: seq<Step>, rounds: seq<ClaimRound>, lease: Time) {
    forall k :: 0 <= k < |rounds| ==>
      && rounds[k].Valid() && Legal(Upto(first, rounds, k), lease) && Exec(Upto(first, rounds, k), lease).live == map[]
  }

  lemma SettledTasks(s: Db, rows: map<Id, Row>)
    requires s.tasks == rows
    ensures Settled(s) <==> SettledRows(rows)
  {
  }

  /** A Claim that is alone and finds an unsettled failure claims or fails an unclaimed task. */
  lemma RoundDrops(before: seq<Step>, round: ClaimRound, lease: Time)
    requires Legal(before, lease) && Exec(before, lease).live == map[] && round.Valid()
    requires Legal(before + round.Claims(), lease) && !SettledRows(Exec(before, lease).rows)
    ensures Unclaimed(Exec(before + round.Claims(), lease).rows) < Unclaimed(Exec(before, lease).rows)
  {
    hide Legal, Exec, SettledRows, Settled, Serial, Outcomes, CommitOrder, FullClaim, State, Inv, After, NoCreate;
    var tx, worker, kind, mid := round.tx, round.worker, round.kind, round.mid;
    assert before + round.Claims() == before + [Begin(tx, ClaimCall(worker, kind))] + mid + [Commit(tx)];
    var history, c, o, q := UncontendedClaim(before, tx, worker, kind, mid, lease);
    var a := After(EMPTY, history);
    SettledTasks(a, Exec(before, lease).rows);
    var steps := before + [Begin(tx, ClaimCall(worker, kind))] + mid;
    ClaimPropagates(a, worker, kind, lease, c, Exec(steps, lease).live[tx].pc.reply);
  }

  lemma ClaimsNoCreate(round: ClaimRound)
    requires round.Valid()
    ensures NoCreate(round.between) && NoCreate(round.Claims())
  {
    var steps := round.Claims();
    forall i | 0 <= i < |steps| ensures !(steps[i].Begin? && steps[i].call.CreateCall?) {
      if 0 < i < |steps| - 1 { assert steps[i] == round.mid[i - 1]; }
    }
  }

  lemma {:induction false} RoundsDrop(first: seq<Step>, rounds: seq<ClaimRound>, lease: Time)
    requires Legal(first, lease) && NoCreateOpen(Exec(first, lease))
    requires Legal(AllSteps(first, rounds), lease) && Alternates(first, rounds, lease)
    requires forall k :: 0 <= k < |rounds| ==> !SettledRows(Exec(Upto(first, rounds, k), lease).rows)
    ensures NoCreateOpen(Exec(AllSteps(first, rounds), lease))
    ensures Unclaimed(Exec(AllSteps(first, rounds), lease).rows) + |rounds| <= Unclaimed(Exec(first, lease).rows)
    decreases |rounds|
  {
    hide Legal, Exec, NoCreateOpen, Unclaimed, SettledRows;
    if rounds == [] {
    } else {
      var n := |rounds| - 1;
      var start, round := AllSteps(first, rounds[..n]), rounds[n];
      var before := start + round.between;
      assert Upto(first, rounds, n) == before;
      LegalPrefix(start, round.between, lease);
      EarlierRounds(first, rounds, lease);
      RoundsDrop(first, rounds[..n], lease);
      ClaimsNoCreate(round);
      StepsUnclaimed(start, round.between, lease);
      StepsUnclaimed(before, round.Claims(), lease);
      RoundDrops(before, round, lease);
    }
  }

  lemma EarlierRounds(first: seq<Step>, rounds: seq<ClaimRound>, lease: Time)
    requires rounds != [] && Alternates(first, rounds, lease)
    ensures Alternates(first, rounds[..|rounds| - 1], lease)
    ensures forall k :: 0 <= k < |rounds| - 1 ==> Upto(first, rounds[..|rounds| - 1], k) == Upto(first, rounds, k)
  {
    hide Legal, Exec, AllSteps;
    var n := |rounds| - 1;
    forall k | 0 <= k < n ensures rounds[..n][k] == rounds[k] && Upto(first, rounds[..n], k) == Upto(first, rounds, k) {
      assert rounds[..n][..k] == rounds[..k];
    }
  }

  /**
   Among more Claims that are alone than there are tasks, with any interleaving but
   new Creates between them, one starts from rows where every descendant of a
   failed task has failed.
   */
  lemma PropagationFinishesInterleaved(first: seq<Step>, rounds: seq<ClaimRound>, lease: Time)
    requires Legal(first, lease) && NoCreateOpen(Exec(first, lease))
    requires Legal(AllSteps(first, rounds), lease) && Alternates(first, rounds, lease)
    requires |rounds| > |Exec(first, lease).rows|
    ensures exists k :: 0 <= k < |rounds| && SettledRows(Exec(Upto(first, rounds, k), lease).rows)
  {
    hide Legal, Exec, NoCreateOpen, SettledRows;
    if forall k :: 0 <= k < |rounds| ==> !SettledRows(Exec(Upto(first, rounds, k), lease).rows) {
      RoundsDrop(first, rounds, lease);
      SumBound(Exec(first, lease).rows, Waiting(), 1);
    }
  }
}
