/**
 A Claim during which no other transaction is open: its scans pass over no row
 that qualifies, so what it commits is a full Claim of module Transactions
 (internal/queue/store.go:219-275).
 */
module Uncontended {
  import opened Basics
  import opened Strings
  import opened Tasks
  import opened TaskLog
  import opened Dependencies
  import opened Transactions
  import opened Columns
  import opened Batches
  import opened Framing
  import opened Sql
  import opened Refinement
  import opened Simulation
  import opened Serializability

  // One scan over rows that nobody changes

  /** Opened at `start`: every row that qualified then is locked or still to be visited, in order. */
  ghost predicate Scanned(pc: Pc, kind: string, tasks: map<Id, Row>, start: Time, clock: Time,
                          queue: seq<Id>, locked: seq<Id>)
  {
    var all := locked + queue;
    && Distinct(all) && |locked| <= Limit(pc) && (forall id :: id in all ==> id in tasks)
    && (forall i, j :: 0 <= i < j < |all| ==> InScanOrder(pc, tasks, all[i], all[j]))
    && (forall id :: id in locked ==> Qualifies(pc, kind, tasks, tasks[id], clock))
    && (forall id :: id in tasks && Qualifies(pc, kind, tasks, tasks[id], start) ==> id in all)
  }

  /** Leases only run out; the other clauses do not read the clock. */
  lemma QualifiesOn(pc: Pc, kind: string, tasks: map<Id, Row>, row: Row, start: Time, clock: Time)
    ensures start <= clock && Qualifies(pc, kind, tasks, row, start) ==> Qualifies(pc, kind, tasks, row, clock)
    ensures pc != Recover ==> Qualifies(pc, kind, tasks, row, start) == Qualifies(pc, kind, tasks, row, clock)
  {
    hide SomeParentFailed, NoParentUnfinished;
  }

  lemma ScannedOpen(pc: Pc, kind: string, tasks: map<Id, Row>, start: Time, clock: Time, queue: seq<Id>)
    requires Visits(pc, kind, tasks, clock, queue) && (pc == Recover ==> start == clock)
    ensures Scanned(pc, kind, tasks, start, clock, queue, [])
  {
    hide Qualifies, InScanOrder, Distinct;
    assert [] + queue == queue;
    forall id | id in tasks && Qualifies(pc, kind, tasks, tasks[id], start) ensures id in queue {
      QualifiesOn(pc, kind, tasks, tasks[id], start, clock);
    }
  }

  lemma ScannedTick(pc: Pc, kind: string, tasks: map<Id, Row>, start: Time, clock: Time, later: Time,
                    queue: seq<Id>, locked: seq<Id>)
    requires Scanned(pc, kind, tasks, start, clock, queue, locked) && clock <= later
    ensures Scanned(pc, kind, tasks, start, later, queue, locked)
  {
    hide Qualifies, InScanOrder, Distinct;
    forall id | id in locked ensures Qualifies(pc, kind, tasks, tasks[id], later) {
      assert id in locked + queue;
      QualifiesOn(pc, kind, tasks, tasks[id], clock, later);
    }
  }

  lemma ScannedLock(pc: Pc, kind: string, tasks: map<Id, Row>, start: Time, clock: Time, queue: seq<Id>,
                    locked: seq<Id>)
    requires Scanned(pc, kind, tasks, start, clock, queue, locked) && queue != [] && |locked| < Limit(pc)
    requires queue[0] in tasks && Qualifies(pc, kind, tasks, tasks[queue[0]], clock)
    ensures Scanned(pc, kind, tasks, start, clock, queue[1..], locked + [queue[0]])
  {
    hide Qualifies, InScanOrder, Distinct;
    assert (locked + [queue[0]]) + queue[1..] == locked + queue;
  }

  lemma ScannedSkip(pc: Pc, kind: string, tasks: map<Id, Row>, start: Time, clock: Time, queue: seq<Id>,
                    locked: seq<Id>)
    requires Scanned(pc, kind, tasks, start, clock, queue, locked) && queue != [] && start <= clock
    requires queue[0] in tasks && !Qualifies(pc, kind, tasks, tasks[queue[0]], clock)
    ensures Scanned(pc, kind, tasks, start, clock, queue[1..], locked)
  {
    hide Qualifies, InScanOrder, Distinct;
    var all, rest := locked + queue, locked + queue[1..];
    DropNext(locked, queue);
    assert forall i :: 0 <= i < |rest| ==> rest[i] == all[if i < |locked| then i else i + 1];
    forall id | id in tasks && Qualifies(pc, kind, tasks, tasks[id], start) ensures id in rest {
      QualifiesOn(pc, kind, tasks, tasks[id], start, clock);
      assert id in all && id != queue[0];
    }
  }

  predicate Visited(pc: Pc, queue: seq<Id>, locked: seq<Id>) { queue == [] || |locked| == Limit(pc) }

  lemma Ordered(pc: Pc, tasks: map<Id, Row>, queue: seq<Id>, locked: seq<Id>, a: Id, b: Id)
    requires forall id :: id in locked + queue ==> id in tasks
    requires var all := locked + queue; forall i, j :: 0 <= i < j < |all| ==> InScanOrder(pc, tasks, all[i], all[j])
    requires a in locked && b in queue
    ensures a in tasks && b in tasks && InScanOrder(pc, tasks, a, b)
  {
    hide InScanOrder;
    var all := locked + queue;
    var i :| 0 <= i < |locked| && locked[i] == a;
    var j :| 0 <= j < |queue| && queue[j] == b;
    assert all[i] == a && all[|locked| + j] == b;
  }

  lemma RecoveryFull(s: Db, kind: string, start: Time, clock: Time, queue: seq<Id>, locked: seq<Id>)
    requires Scanned(Recover, kind, s.tasks, start, clock, queue, locked) && Visited(Recover, queue, locked)
    ensures FullRecovery(s, locked, start, clock)
  {
    DistinctFront(locked, queue);
    hide Distinct;
    assert forall id :: id in locked ==> id in locked + queue;
    forall id | id in s.tasks && Expired(s.tasks[id], start) && id !in locked
      ensures |locked| == BATCH && forall e :: e in locked ==> LeaseEnd(s.tasks[e]) <= LeaseEnd(s.tasks[id])
    {
      assert id in queue;
      forall e | e in locked ensures LeaseEnd(s.tasks[e]) <= LeaseEnd(s.tasks[id]) {
        Ordered(Recover, s.tasks, queue, locked, e, id);
      }
    }
  }

  lemma PropagationFull(s: Db, kind: string, start: Time, clock: Time, queue: seq<Id>, locked: seq<Id>)
    requires Scanned(Propagate, kind, s.tasks, start, clock, queue, locked) && Visited(Propagate, queue, locked)
    ensures FullPropagation(s, locked)
  {
    DistinctFront(locked, queue);
    hide Distinct, SomeParentFailed;
    forall id | id in locked ensures Blocked(s, id) { assert id in locked + queue; }
    if |locked| < BATCH {
      forall id | Blocked(s, id) ensures id in locked { assert id in locked + queue; }
    }
  }

  lemma PickFull(s: Db, worker: string, kind: string, lease: Time, start: Time, clock: Time,
                 queue: seq<Id>, locked: seq<Id>, token: string)
    requires Scanned(Choose, kind, s.tasks, start, clock, queue, locked) && Visited(Choose, queue, locked)
    requires locked != []
    ensures var take := [Take(locked[0], worker, token, clock, clock + lease)];
      FullPick(s, worker, kind, lease, take, Granted(locked[0], token))
  {
    hide Distinct, NoParentUnfinished;
    var id := locked[0];
    assert locked == [id] && id in locked + queue;
    forall x | Ready(s.tasks, x, kind) ensures Older(s.tasks, id, x) {
      assert x in locked + queue;
      if x == id { LeqTotal(id, id); } else { Ordered(Choose, s.tasks, queue, locked, id, x); }
    }
  }

  lemma NothingReady(s: Db, worker: string, kind: string, lease: Time, start: Time, clock: Time, queue: seq<Id>)
    requires Scanned(Choose, kind, s.tasks, start, clock, queue, []) && Visited(Choose, queue, [])
    ensures FullPick(s, worker, kind, lease, [], NoTask)
  {
    hide Distinct, NoParentUnfinished;
    assert [] + queue == [];
  }

  // A transaction that runs alone

  ghost predicate Alone(f: Server, a: Db, tx: TxId, call: Call) {
    && Inv(a) && a.tasks == f.rows && a.issued <= f.nonces
    && call.ClaimCall? && call.worker != ""
    && f.live.Keys == {tx} && f.live[tx].call == call
    && forall id :: id in f.locks ==> f.locks[id] == tx
  }

  /** The tables as the transaction sees them. */
  ghost function View(pc: Pc, a: Db, c: Claiming): Db {
    match pc
    case Recover => a
    case Propagate => c.AfterExpiry(a)
    case Choose => c.AfterBlocks(a)
    case _ => State(c.AfterBlocks(a), c.take)
  }

  /** What has been done before the next statement. */
  ghost predicate Sofar(pc: Pc, call: Call, a: Db, lease: Time, c: Claiming)
    requires call.ClaimCall?
  {
    match pc
    case Recover => true
    case Propagate => FullyRecovered(a, c)
    case Choose => FullyPropagated(a, c)
    case LogClaimed(id, token) => FullClaim(a, call.worker, call.kind, lease, c, Granted(id, token))
    case ReadyToCommit(reply) => FullClaim(a, call.worker, call.kind, lease, c, reply)
    case _ => false
  }

  ghost predicate Stage(rows: map<Id, Row>, clock: Time, t: Txn, a: Db, lease: Time, c: Claiming)
    requires t.call.ClaimCall?
  {
    && c.start <= clock && Sofar(t.pc, t.call, a, lease, c) && Sees(rows, t) == View(t.pc, a, c).tasks
    && (t.scan.Scanning? ==>
          && Selecting(t) && t.scan.snapshot == View(t.pc, a, c).tasks
          && Scanned(t.pc, t.call.kind, t.scan.snapshot, c.start, clock, t.scan.queue, t.scan.locked))
  }

  /** Steps of the transaction itself short of its end. */
  predicate OwnStep(step: Step, tx: TxId) {
    !step.Tick? && !step.Begin? && !step.Commit? && !step.Refuse? && !step.Rollback? && step.tx == tx
  }

  lemma TickAlone(f: Server, now: Time, a: Db, tx: TxId, call: Call, lease: Time, c: Claiming)
    requires Alone(f, a, tx, call) && Stage(f.rows, f.clock, f.live[tx], a, lease, c) && f.clock <= now
    ensures Stage(f.rows, now, f.live[tx], a, lease, c)
  {
    hide View, Sofar, Scanned;
    var t := f.live[tx];
    if t.scan.Scanning? {
      ScannedTick(t.pc, t.call.kind, t.scan.snapshot, c.start, f.clock, now, t.scan.queue, t.scan.locked);
    }
  }

  /** A statement of the transaction changes no committed row and takes locks only for itself. */
  lemma StillAlone(f: Server, step: Step, a: Db, tx: TxId, call: Call, lease: Time)
    requires Alone(f, a, tx, call) && OwnStep(step, tx) && TxEnabled(f, step, f.live[tx])
    ensures Alone(DoTx(f, step, f.live[tx], lease), a, tx, call)
    ensures DoTx(f, step, f.live[tx], lease).rows == f.rows && DoTx(f, step, f.live[tx], lease).clock == f.clock
  {
    hide Inv, Qualifies, Visits, Lockable, RecoveryEvents, PropagationEvents, Rewritten, PendingEvent, ReplyAfterLog,
      Leased;
  }

  lemma OpenAlone(f: Server, queue: seq<Id>, a: Db, tx: TxId, call: Call, lease: Time, c: Claiming)
    returns (c': Claiming)
    requires Alone(f, a, tx, call) && Stage(f.rows, f.clock, f.live[tx], a, lease, c) && CanOpen(f, f.live[tx], queue)
    ensures Stage(f.rows, f.clock, ScanOpened(f, tx, f.live[tx], queue).live[tx], a, lease, c')
    ensures c' == if f.live[tx].pc == Recover then c.(start := f.clock) else c
  {
    hide Inv, Scanned, Visits, FullyRecovered, FullyPropagated, FullClaim;
    var t := f.live[tx];
    c' := if t.pc == Recover then c.(start := f.clock) else c;
    ScannedOpen(t.pc, t.call.kind, Sees(f.rows, t), c'.start, f.clock, queue);
  }

  lemma LockAlone(f: Server, id: Id, a: Db, tx: TxId, call: Call, lease: Time, c: Claiming)
    requires Alone(f, a, tx, call) && Stage(f.rows, f.clock, f.live[tx], a, lease, c) && CanLock(f, tx, f.live[tx], id)
    ensures Stage(f.rows, f.clock, RowScanned(f, tx, f.live[tx], id).live[tx], a, lease, c)
  {
    hide Inv, View, Sofar, Qualifies, Scanned;
    var t := f.live[tx];
    ScannedLock(t.pc, t.call.kind, t.scan.snapshot, c.start, f.clock, t.scan.queue, t.scan.locked);
  }

  /** Alone, a scan passes over a row only because it does not qualify. */
  lemma SkipAlone(f: Server, id: Id, a: Db, tx: TxId, call: Call, lease: Time, c: Claiming)
    requires Alone(f, a, tx, call) && Stage(f.rows, f.clock, f.live[tx], a, lease, c) && CanSkip(f, tx, f.live[tx], id)
    ensures Stage(f.rows, f.clock, RowSkipped(f, tx, f.live[tx], id).live[tx], a, lease, c)
  {
    hide Inv, View, Sofar, Qualifies;
    var t := f.live[tx];
    assert id in t.scan.locked + t.scan.queue;
    hide Scanned;
    ScannedSkip(t.pc, t.call.kind, t.scan.snapshot, c.start, f.clock, t.scan.queue, t.scan.locked);
  }

  lemma RecoverAlone(f: Server, a: Db, tx: TxId, call: Call, lease: Time, c: Claiming) returns (c': Claiming)
    requires Alone(f, a, tx, call) && Stage(f.rows, f.clock, f.live[tx], a, lease, c) && CanClose(f.live[tx], Recover)
    ensures Stage(f.rows, f.clock, RecoverClosed(f, tx, f.live[tx]).live[tx], a, lease, c')
    ensures c' == c.(expired := f.live[tx].scan.locked, now := f.clock)
    ensures FullRecovery(a, f.live[tx].scan.locked, c.start, f.clock)
  {
    hide Inv, Run, State, Qualifies, FullRecovery, Scanned;
    var t := f.live[tx];
    var ids := t.scan.locked;
    c' := c.(expired := ids, now := f.clock);
    RecoveryFull(a, t.call.kind, c.start, f.clock, t.scan.queue, ids);
    RecoveryRows(a, ids, c.start, f.clock);
    RecoverOps(a, ids, f.clock);
    hide Rewritten, AllExpired, Distinct, ExpireOps;
    Overlay(f.rows, t.writes, Rewritten(a.tasks, ids, Recovered));
  }

  lemma RecoveryRows(a: Db, ids: seq<Id>, start: Time, now: Time)
    requires FullRecovery(a, ids, start, now)
    ensures Distinct(ids) && AllExpired(a.tasks, ids, now)
  {
  }

  lemma PropagateAlone(f: Server, a: Db, tx: TxId, call: Call, lease: Time, c: Claiming) returns (c': Claiming)
    requires Alone(f, a, tx, call) && Stage(f.rows, f.clock, f.live[tx], a, lease, c) && CanClose(f.live[tx], Propagate)
    ensures Stage(f.rows, f.clock, PropagateClosed(f, tx, f.live[tx]).live[tx], a, lease, c')
    ensures c' == c.(blocked := f.live[tx].scan.locked)
  {
    hide Inv, Run, State, Qualifies, FullyRecovered, FullPropagation, Scanned;
    var t, s := f.live[tx], c.AfterExpiry(a);
    var ids := t.scan.locked;
    c' := c.(blocked := ids);
    SameExpiry(a, c, c');
    PropagationFull(s, t.call.kind, c.start, f.clock, t.scan.queue, ids);
    PropagationRows(s, ids);
    PropagateOps(s, ids);
    hide Rewritten, AllBlocked, Distinct, BlockOps;
    Overlay(f.rows, t.writes, Rewritten(s.tasks, ids, FailRow));
  }

  lemma SameExpiry(a: Db, c: Claiming, c': Claiming)
    requires c' == c.(blocked := c'.blocked) && FullyRecovered(a, c)
    ensures FullyRecovered(a, c') && c'.AfterExpiry(a) == c.AfterExpiry(a)
  {
    hide Run, State, FullRecovery;
  }

  lemma PropagationRows(s: Db, ids: seq<Id>)
    requires FullPropagation(s, ids)
    ensures Distinct(ids) && AllBlocked(s, ids)
  {
  }

  lemma EmptyAlone(f: Server, a: Db, tx: TxId, call: Call, lease: Time, c: Claiming) returns (c': Claiming)
    requires Alone(f, a, tx, call) && Stage(f.rows, f.clock, f.live[tx], a, lease, c)
    requires CanClose(f.live[tx], Choose) && f.live[tx].scan.locked == []
    ensures Stage(f.rows, f.clock, NothingChosen(f, tx, f.live[tx]).live[tx], a, lease, c')
    ensures c' == c.(take := [])
    ensures NothingAvailable(c.AfterBlocks(a).tasks, call.kind)
  {
    hide Inv, Run, State, Qualifies, FullyPropagated, Scanned, FullPick;
    var t, s := f.live[tx], c.AfterBlocks(a);
    c' := c.(take := []);
    NothingReady(s, t.call.worker, t.call.kind, lease, c.start, f.clock, t.scan.queue);
    EmptyState(s);
    SameStages(a, c, c');
    NothingPicked(s, t.call.worker, t.call.kind, lease);
  }

  /** The last statement does not change what the first two did. */
  lemma SameStages(a: Db, c: Claiming, c': Claiming)
    requires c' == c.(take := c'.take) && FullyPropagated(a, c)
    ensures FullyPropagated(a, c') && c'.AfterBlocks(a) == c.AfterBlocks(a)
  {
    hide Run, State, FullRecovery, FullPropagation;
  }

  lemma ChooseAlone(f: Server, token: string, a: Db, tx: TxId, call: Call, lease: Time, c: Claiming)
    returns (c': Claiming)
    requires Alone(f, a, tx, call) && Stage(f.rows, f.clock, f.live[tx], a, lease, c) && CanChoose(f, f.live[tx], token)
    ensures Stage(f.rows, f.clock, Chosen(f, tx, f.live[tx], token, lease).live[tx], a, lease, c')
    ensures c' == c.(take := [TakeFor(f.clock, f.live[tx], token, lease)])
    ensures HandedOut(c.AfterBlocks(a).tasks, call.kind, f.live[tx].scan.locked[0])
  {
    hide Inv, Run, State, Qualifies, FullyPropagated, Scanned, FullPick, Guard;
    var t, s := f.live[tx], c.AfterBlocks(a);
    var op := TakeFor(f.clock, t, token, lease);
    c' := c.(take := [op]);
    PickFull(s, t.call.worker, t.call.kind, lease, c.start, f.clock, t.scan.queue, t.scan.locked, token);
    SameStages(a, c, c');
    NoNonces(a, c);
    StagesInv(a, c);
    PickedOldest(s, t.call.worker, t.call.kind, lease, op);
    PickGuard(s, t.call.worker, t.call.kind, lease, op);
    TakeOp(s, op);
    ChosenRows(f.rows, t, s, op);
  }

  lemma StagesInv(a: Db, c: Claiming)
    requires Inv(a) && FullyPropagated(a, c)
    ensures Inv(c.AfterBlocks(a))
  {
    hide Inv, State, FullRecovery, FullPropagation;
    ClaimStages(a, c);
    RunInv(a, ExpireOps(c.expired, c.now) + BlockOps(c.blocked));
  }

  lemma PickedOldest(s: Db, worker: string, kind: string, lease: Time, op: Op)
    requires Inv(s) && op.Take? && FullPick(s, worker, kind, lease, [op], Granted(op.id, op.token))
    ensures HandedOut(s.tasks, kind, op.id)
  {
    hide Inv, Older, Ready, HandedOut;
    StoredParents(s);
    PickInColumns(s.tasks, kind, op.id);
  }

  lemma NothingPicked(s: Db, worker: string, kind: string, lease: Time)
    requires FullPick(s, worker, kind, lease, [], NoTask)
    ensures NothingAvailable(s.tasks, kind)
  {
    hide Ready, NothingAvailable;
    NothingInColumns(s.tasks, kind);
  }

  lemma NoNonces(a: Db, c: Claiming)
    requires FullyPropagated(a, c)
    ensures c.AfterBlocks(a).issued == a.issued
  {
    hide Run, State, FullRecovery, FullPropagation, Nonces;
    ClaimStages(a, c);
    BatchSets(c.expired, c.now);
    BatchSets(c.blocked, 0);
    Untouched(a, ExpireOps(c.expired, c.now));
    Untouched(c.AfterExpiry(a), BlockOps(c.blocked));
  }

  lemma PickGuard(s: Db, worker: string, kind: string, lease: Time, op: Op)
    requires op.Take? && worker != "" && op.token != "" && op.token !in s.issued
    requires FullPick(s, worker, kind, lease, [op], Granted(op.id, op.token))
    ensures Guard(s, op)
  {
    hide NoParentUnfinished;
  }

  lemma LogAlone(f: Server, a: Db, tx: TxId, call: Call, lease: Time, c: Claiming)
    requires Alone(f, a, tx, call) && Stage(f.rows, f.clock, f.live[tx], a, lease, c) && Logging(f.live[tx])
    ensures Stage(f.rows, f.clock, EventLogged(f, tx, f.live[tx]).live[tx], a, lease, c)
  {
    hide Inv, State, FullClaim, FullyRecovered, FullyPropagated, Scanned;
  }

  predicate ClaimsStep(step: Step) {
    || step.OpenScan? || step.LockStep? || step.SkipStep? || step.CloseRecover? || step.ClosePropagate?
    || step.CloseEmpty? || step.CloseChoose? || step.LogStep?
  }

  lemma OnlyClaimSteps(f: Server, step: Step, tx: TxId, t: Txn)
    requires t.call.ClaimCall? && OwnStep(step, tx) && TxEnabled(f, step, t)
    ensures ClaimsStep(step)
  {
    hide Qualifies, Visits, Lockable, Existing, KeyTaken;
  }

  /** Before its recovery scan. */
  predicate Fresh(t: Txn) { t.pc == Recover && t.scan.Idle? }

  /** How a statement changes the place in the program, and when it reads the clock for the recovery. */
  predicate Moved(t: Txn, step: Step, t': Txn, clock: Time, c: Claiming, c': Claiming) {
    && !Fresh(t') && (Fresh(t) ==> step.OpenScan?)
    && c'.start == (if step.OpenScan? && t.pc == Recover then clock else c.start)
    && (step.OpenScan? ==> t.scan.Idle?)
    && c'.now == (if step.CloseRecover? then clock else c.now)
    && (step.CloseRecover? ==> t.pc == Recover && !Fresh(t))
    && (t'.pc == Recover <==> t.pc == Recover && !step.CloseRecover?)
  }

  lemma StageStep(f: Server, step: Step, a: Db, tx: TxId, call: Call, lease: Time, c: Claiming) returns (c': Claiming)
    requires Alone(f, a, tx, call) && Stage(f.rows, f.clock, f.live[tx], a, lease, c)
    requires ClaimsStep(step) && step.tx == tx && TxEnabled(f, step, f.live[tx])
    ensures var g := DoTx(f, step, f.live[tx], lease);
      tx in g.live && g.live[tx].call == call && Stage(f.rows, f.clock, g.live[tx], a, lease, c')
      && Moved(f.live[tx], step, g.live[tx], f.clock, c, c')
  {
    hide Stage, Visits, Lockable, Inv, Rewritten, RecoveryEvents, PropagationEvents, PendingEvent, ReplyAfterLog,
      Leased;
    c' := c;
    match step {
      case OpenScan(_, queue) => c' := OpenAlone(f, queue, a, tx, call, lease, c);
      case LockStep(_, id) => LockAlone(f, id, a, tx, call, lease, c);
      case SkipStep(_, id) => SkipAlone(f, id, a, tx, call, lease, c);
      case CloseRecover(_) => c' := RecoverAlone(f, a, tx, call, lease, c);
      case ClosePropagate(_) => c' := PropagateAlone(f, a, tx, call, lease, c);
      case CloseEmpty(_) => c' := EmptyAlone(f, a, tx, call, lease, c);
      case CloseChoose(_, token) => c' := ChooseAlone(f, token, a, tx, call, lease, c);
      case LogStep(_) => LogAlone(f, a, tx, call, lease, c);
    }
  }

  lemma OwnAlone(f: Server, step: Step, a: Db, tx: TxId, call: Call, lease: Time, c: Claiming) returns (c': Claiming)
    requires Alone(f, a, tx, call) && Stage(f.rows, f.clock, f.live[tx], a, lease, c)
    requires OwnStep(step, tx) && TxEnabled(f, step, f.live[tx])
    ensures Alone(DoTx(f, step, f.live[tx], lease), a, tx, call)
    ensures var g := DoTx(f, step, f.live[tx], lease);
      Stage(g.rows, g.clock, g.live[tx], a, lease, c') && Moved(f.live[tx], step, g.live[tx], f.clock, c, c')
  {
    hide Stage, TxEnabled, DoTx, Moved;
    OnlyClaimSteps(f, step, tx, f.live[tx]);
    StillAlone(f, step, a, tx, call, lease);
    c' := StageStep(f, step, a, tx, call, lease, c);
  }

  // The whole transaction

  predicate AloneStep(step: Step, tx: TxId) { step.Tick? || OwnStep(step, tx) }

  lemma DoAlone(f: Server, step: Step, a: Db, tx: TxId, call: Call, lease: Time, c: Claiming) returns (c': Claiming)
    requires Alone(f, a, tx, call) && Stage(f.rows, f.clock, f.live[tx], a, lease, c)
    requires AloneStep(step, tx) && Enabled(f, step)
    ensures Alone(Do(f, step, lease), a, tx, call)
    ensures var g := Do(f, step, lease); Stage(g.rows, g.clock, g.live[tx], a, lease, c')
    ensures step.Tick? ==> c' == c && Do(f, step, lease).live == f.live
    ensures !step.Tick? ==> Moved(f.live[tx], step, Do(f, step, lease).live[tx], f.clock, c, c')
  {
    hide Stage, DoTx, TxEnabled, Moved;
    c' := c;
    if step.Tick? {
      TickAlone(f, step.now, a, tx, call, lease, c);
    } else {
      c' := OwnAlone(f, step, a, tx, call, lease, c);
    }
  }

  /** Legality and execution, one step at a time. */
  lemma ExecSnoc(steps: seq<Step>, step: Step, lease: Time)
    requires Legal(steps + [step], lease)
    ensures Legal(steps, lease) && Enabled(Exec(steps, lease), step)
    ensures Exec(steps + [step], lease) == Do(Exec(steps, lease), step, lease)
  {
    assert (steps + [step])[..|steps|] == steps;
  }

  lemma BeginAlone(before: seq<Step>, tx: TxId, call: Call, lease: Time, history: seq<Done>, h: map<TxId, seq<Op>>)
    requires Legal(before + [Begin(tx, call)], lease) && Legal(before, lease) && Exec(before, lease).live == map[]
    requires call.ClaimCall?
    requires Simulates(Exec(before, lease), After(EMPTY, history), h, lease)
    ensures var f := Exec(before + [Begin(tx, call)], lease); var a := After(EMPTY, history);
      && Alone(f, a, tx, call) && Fresh(f.live[tx])
      && Stage(f.rows, f.clock, f.live[tx], a, lease, Claiming([], f.clock, f.clock, [], []))
  {
    hide Inv, LogOk, TxOk, Exec, Legal, After;
    ExecSnoc(before, Begin(tx, call), lease);
  }

  /**
   The recovery scan opened with step `o` of `mid`, at clock `c.start`, and closed
   with step `q`, at clock `c.now`, as far as the transaction has come.
   */
  ghost predicate ReadAt(steps: seq<Step>, mid: seq<Step>, tx: TxId, t: Txn, lease: Time, c: Claiming, o: nat, q: nat) {
    && (!Fresh(t) ==>
          && o < |mid| && mid[o].OpenScan? && Legal(steps + mid[..o], lease)
          && tx in Exec(steps + mid[..o], lease).live && Fresh(Exec(steps + mid[..o], lease).live[tx])
          && c.start == Exec(steps + mid[..o], lease).clock)
    && (t.pc != Recover ==>
          && o < q < |mid| && mid[q].CloseRecover? && Legal(steps + mid[..q], lease)
          && c.now == Exec(steps + mid[..q], lease).clock)
  }

  lemma ReadOn(steps: seq<Step>, mid: seq<Step>, step: Step, tx: TxId, t: Txn, t': Txn, lease: Time,
               c: Claiming, c': Claiming, o: nat, q: nat) returns (o': nat, q': nat)
    requires Legal(steps + mid, lease) && tx in Exec(steps + mid, lease).live && Exec(steps + mid, lease).live[tx] == t
    requires ReadAt(steps, mid, tx, t, lease, c, o, q)
    requires if step.Tick? then c' == c && t' == t else Moved(t, step, t', Exec(steps + mid, lease).clock, c, c')
    ensures ReadAt(steps, mid + [step], tx, t', lease, c', o', q')
  {
    hide Exec, Legal;
    var n, all := |mid|, mid + [step];
    o' := if step.OpenScan? && t.pc == Recover then n else o;
    q' := if step.CloseRecover? then n else q;
    assert all[..n] == mid;
    assert o < n ==> all[..o] == mid[..o];
    assert q < n ==> all[..q] == mid[..q];
  }

  lemma {:induction false} MidAlone(steps: seq<Step>, mid: seq<Step>, a: Db, tx: TxId, call: Call, lease: Time,
                                    c: Claiming)
    returns (c': Claiming, o: nat, q: nat)
    requires Legal(steps, lease) && Alone(Exec(steps, lease), a, tx, call) && Fresh(Exec(steps, lease).live[tx])
    requires Stage(Exec(steps, lease).rows, Exec(steps, lease).clock, Exec(steps, lease).live[tx], a, lease, c)
    requires Legal(steps + mid, lease) && forall i :: 0 <= i < |mid| ==> AloneStep(mid[i], tx)
    ensures Alone(Exec(steps + mid, lease), a, tx, call)
    ensures var f := Exec(steps + mid, lease); Stage(f.rows, f.clock, f.live[tx], a, lease, c')
    ensures ReadAt(steps, mid, tx, Exec(steps + mid, lease).live[tx], lease, c', o, q)
    decreases |mid|
  {
    hide Stage, Exec, Legal, Do, Enabled, Moved, ReadAt, Inv;
    if mid == [] {
      assert steps + mid == steps;
      c', o, q := c, 0, 0;
      NothingReadYet(steps, tx, Exec(steps, lease).live[tx], lease, c);
    } else {
      var n := |mid| - 1;
      var first := mid[..n];
      assert steps + mid == steps + first + [mid[n]] && mid == first + [mid[n]];
      ExecSnoc(steps + first, mid[n], lease);
      var c1, o1, q1 := MidAlone(steps, first, a, tx, call, lease, c);
      var f := Exec(steps + first, lease);
      c' := DoAlone(f, mid[n], a, tx, call, lease, c1);
      var g := Do(f, mid[n], lease);
      o, q := ReadOn(steps, first, mid[n], tx, f.live[tx], g.live[tx], lease, c1, c', o1, q1);
    }
  }

  lemma NothingReadYet(steps: seq<Step>, tx: TxId, t: Txn, lease: Time, c: Claiming)
    requires Fresh(t)
    ensures ReadAt(steps, [], tx, t, lease, c, 0, 0)
  {
  }

  lemma CommitAlone(f: Server, a: Db, tx: TxId, call: Call, lease: Time, c: Claiming)
    requires Alone(f, a, tx, call) && Stage(f.rows, f.clock, f.live[tx], a, lease, c) && f.live[tx].pc.ReadyToCommit?
    ensures FullClaim(a, call.worker, call.kind, lease, c, f.live[tx].pc.reply)
    ensures Committed(f, tx, f.live[tx]).rows == State(a, c.Ops()).tasks
  {
    hide Inv, State, Run, FullClaim, Scanned;
    FullClaimCommits(a, call.worker, call.kind, lease, c, f.live[tx].pc.reply);
  }

  /**
   A Claim during which no other transaction is open commits a full Claim on the
   tables that the calls committed before it left. Its recovery takes every lease
   that had run out when its scan opened, with step `o`, and none that had not
   when the scan closed, with step `q`.
   */
  lemma UncontendedClaim(before: seq<Step>, tx: TxId, worker: string, kind: string, mid: seq<Step>, lease: Time)
    returns (history: seq<Done>, c: Claiming, o: nat, q: nat)
    requires Legal(before, lease) && Exec(before, lease).live == map[]
    requires forall i :: 0 <= i < |mid| ==> AloneStep(mid[i], tx)
    requires Legal(before + [Begin(tx, ClaimCall(worker, kind))] + mid + [Commit(tx)], lease)
    ensures Serial(EMPTY, history, lease) && Outcomes(history) == CommitOrder(before, lease)
    ensures Inv(After(EMPTY, history)) && After(EMPTY, history).tasks == Exec(before, lease).rows
    ensures var steps := before + [Begin(tx, ClaimCall(worker, kind))] + mid;
      && Legal(steps, lease) && tx in Exec(steps, lease).live && Exec(steps, lease).live[tx].pc.ReadyToCommit?
      && FullClaim(After(EMPTY, history), worker, kind, lease, c, Exec(steps, lease).live[tx].pc.reply)
    ensures var begin := before + [Begin(tx, ClaimCall(worker, kind))];
      && o < q < |mid| && mid[o].OpenScan? && mid[q].CloseRecover?
      && Legal(begin + mid[..o], lease) && c.start == Exec(begin + mid[..o], lease).clock
      && Legal(begin + mid[..q], lease) && c.now == Exec(begin + mid[..q], lease).clock
      && tx in Exec(begin + mid[..o], lease).live && Exec(begin + mid[..o], lease).live[tx].pc == Recover
    ensures Exec(before + [Begin(tx, ClaimCall(worker, kind))] + mid + [Commit(tx)], lease).rows
         == State(After(EMPTY, history), c.Ops()).tasks
  {
    hide Alone, Stage, Exec, Legal, Simulates, Serial, Outcomes, CommitOrder, FullClaim, State, Inv;
    var call := ClaimCall(worker, kind);
    var h;
    history, h := Simulated(before, lease);
    Observed(Exec(before, lease), After(EMPTY, history), h, lease);
    var a, steps := After(EMPTY, history), before + [Begin(tx, call)];
    ExecSnoc(steps + mid, Commit(tx), lease);
    LegalPrefix(steps, mid, lease);
    BeginAlone(before, tx, call, lease, history, h);
    var now := Exec(steps, lease).clock;
    c, o, q := MidAlone(steps, mid, a, tx, call, lease, Claiming([], now, now, [], []));
    CallAlone(Exec(steps + mid, lease), a, tx, call);
    CommitAlone(Exec(steps + mid, lease), a, tx, call, lease, c);
  }

  lemma CallAlone(f: Server, a: Db, tx: TxId, call: Call)
    requires Alone(f, a, tx, call)
    ensures tx in f.live && f.live[tx].call == call
  {
    hide Inv;
  }

  lemma {:induction false} LegalPrefix(steps: seq<Step>, mid: seq<Step>, lease: Time)
    requires Legal(steps + mid, lease)
    ensures Legal(steps, lease)
    decreases |mid|
  {
    if mid == [] {
      assert steps + mid == steps;
    } else {
      var n := |mid| - 1;
      assert steps + mid == steps + mid[..n] + [mid[n]];
      ExecSnoc(steps + mid[..n], mid[n], lease);
      LegalPrefix(steps, mid[..n], lease);
    }
  }
}
