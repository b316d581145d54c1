/**
 The commit step, and the theorem: every legal interleaving of statements is
 equivalent to its committed calls executed atomically in commit order, for the
 task rows, for the answers, and for each task's visible events.
 */
module Serializability {
  import opened Basics
  import opened Tasks
  import opened TaskLog
  import opened Transactions
  import opened Batches
  import opened Framing
  import opened Sql
  import opened Refinement
  import opened Simulation

  // Another transaction commits

  /** Two open transactions hold different rows, keys and random values. */
  lemma Apart(f: Server, a: Db, h: map<TxId, seq<Op>>, lease: Time, tx: TxId, x: TxId)
    requires Simulates(f, a, h, lease) && tx in f.live && x in f.live && x != tx
    ensures tx in h && x in h
    ensures Ids(h[tx]) !! Ids(h[x]) && NewKeys(h[tx]) !! NewKeys(h[x]) && Nonces(h[tx]) !! Nonces(h[x])
  {
    hide Inv, LogOk, Effect, Position, ScanOk, Emission, PendingEvent, Ids, NewKeys, Nonces, Own;
    assert TxOk(f, tx, a, h[tx], lease) && TxOk(f, x, a, h[x], lease);
  }

  lemma CommitsLater(a: Db, b: Db, call: Call, lease: Time, ops: seq<Op>, reply: Reply)
    requires Evolves(a.tasks, b.tasks) && Run(b, ops) && Commits(a, call, lease, ops, reply)
    ensures Commits(b, call, lease, ops, reply)
  {
    hide Run;
    if call.ClaimCall? {
      var expired: seq<Id>, now: Time, blocked: seq<Id>, take: seq<Op> :|
        && |expired| <= BATCH && |blocked| <= BATCH
        && ops == ExpireOps(expired, now) + BlockOps(blocked) + take
        && TakeShape(a.tasks, call.worker, call.kind, lease, take, reply);
      assert TakeShape(b.tasks, call.worker, call.kind, lease, take, reply);
      hide TakeShape, ExpireOps, BlockOps;
      assert ClaimShape(b.tasks, call.worker, call.kind, lease, ops, reply);
    }
  }

  lemma PositionLater(locks: map<Id, TxId>, locks': map<Id, TxId>, x: TxId, t: Txn, a: Db, b: Db, ops: seq<Op>,
                      lease: Time)
    requires Position(locks, x, t, a, ops, lease) && Evolves(a.tasks, b.tasks) && Run(b, ops)
    requires forall id :: id in locks && locks[id] == x ==> id in locks' && locks'[id] == x
    ensures Position(locks', x, t, b, ops, lease)
  {
    hide Run, Commits, RecoveredBy;
    match t.pc
    case ReadRow =>
      var id :| Existing(a.tasks, t.call.request, id);
      assert Existing(b.tasks, t.call.request, id);
    case ReadyToCommit(reply) => CommitsLater(a, b, t.call, lease, ops, reply);
    case LogCreated(_) => CommitsLater(a, b, t.call, lease, ops, ReplyAfterLog(t));
    case LogClaimed(_, _) => CommitsLater(a, b, t.call, lease, ops, ReplyAfterLog(t));
    case LogFinished => CommitsLater(a, b, t.call, lease, ops, ReplyAfterLog(t));
    case _ =>
  }

  lemma SeesEvolves(rows: map<Id, Row>, rows': map<Id, Row>, t: Txn)
    requires Evolves(rows, rows')
    ensures Evolves(Sees(rows, t), Sees(rows', t))
  {
  }

  lemma ScanLater(rows: map<Id, Row>, rows': map<Id, Row>, clock: Time, locks: map<Id, TxId>, locks': map<Id, TxId>,
                  x: TxId, t: Txn)
    requires ScanOk(rows, clock, locks, x, t) && Evolves(rows, rows')
    requires forall id :: id in locks && locks[id] == x ==> id in locks' && locks'[id] == x
    requires forall id :: id in locks && locks[id] == x && id in rows ==> id in rows' && rows'[id] == rows[id]
    ensures ScanOk(rows', clock, locks', x, t)
  {
    if t.scan.Scanning? {
      SeesEvolves(rows, rows', t);
      EvolvesTransitive(t.scan.snapshot, Sees(rows, t), Sees(rows', t));
      hide Evolves, Qualifies, DepsClosed, Distinct;
      forall id | id in t.scan.locked ensures LockedOk(rows', clock, locks', x, t, id) {
        assert LockedOk(rows, clock, locks, x, t, id);
      }
    }
  }

  /** What is known after the commit of `tx`. */
  lemma CommitRows(f: Server, a: Db, h: map<TxId, seq<Op>>, lease: Time, tx: TxId)
    requires Simulates(f, a, h, lease) && tx in f.live
    ensures tx in h && Run(a, h[tx]) && Inv(State(a, h[tx]))
    ensures State(a, h[tx]).tasks == Committed(f, tx, f.live[tx]).rows
    ensures State(a, h[tx]).issued <= f.nonces
    ensures Evolves(f.rows, State(a, h[tx]).tasks)
    ensures forall id :: id in f.rows && id !in Ids(h[tx]) ==> State(a, h[tx]).tasks[id] == f.rows[id]
  {
    hide LogOk, Position, ScanOk, Emission, PendingEvent, Ids, Nonces, Run, State, Inv, Evolves;
    assert TxOk(f, tx, a, h[tx], lease);
    RunInv(a, h[tx]);
    RunEvolves(a, h[tx]);
    Untouched(a, h[tx]);
  }

  lemma OtherTx(f: Server, a: Db, h: map<TxId, seq<Op>>, lease: Time, tx: TxId, x: TxId)
    requires tx in f.live && x in f.live && x != tx && tx in h && x in h
    requires Simulates(f, a, h, lease)
    ensures TxOk(Committed(f, tx, f.live[tx]), x, State(a, h[tx]), h[x], lease)
  {
    hide Simulates, Inv, Run, State, Ids, NewKeys, Nonces, Evolves, Emission, Commits, RecoveredBy, DepsClosed, Own,
      PendingEvent;
    Apart(f, a, h, lease, tx, x);
    CommitRows(f, a, h, lease, tx);
    Turn(f, a, h, lease, x);
    SimInv(f, a, h, lease);
    var g, b, t := Committed(f, tx, f.live[tx]), State(a, h[tx]), f.live[x];
    Commute(a, h[tx], h[x], t.writes);
    ReleaseKeeps(f, tx, x);
    PositionLater(f.locks, g.locks, x, t, a, b, h[x], lease);
    LockedElsewhere(f, a, h, lease, tx, x);
    ScanLater(f.rows, g.rows, f.clock, f.locks, g.locks, x, t);
    hide Position, ScanOk;
    assert Effect(g.rows, t, b, h[x]);
    assert Holding(g.locks, g.keys, x, h[x]);
  }

  lemma ReleaseKeeps(f: Server, tx: TxId, x: TxId)
    requires x != tx
    ensures forall id :: id in f.locks && f.locks[id] == x ==>
      id in Release(f, tx).locks && Release(f, tx).locks[id] == x
    ensures forall k :: k in f.keys && f.keys[k] == x ==> k in Release(f, tx).keys && Release(f, tx).keys[k] == x
  {
  }

  /** A row held by one transaction is not changed by the commit of another. */
  lemma LockedElsewhere(f: Server, a: Db, h: map<TxId, seq<Op>>, lease: Time, tx: TxId, x: TxId)
    requires tx in f.live && x in f.live && x != tx && tx in h
    requires Simulates(f, a, h, lease)
    ensures forall id :: id in f.locks && f.locks[id] == x && id in f.rows ==>
      id in Committed(f, tx, f.live[tx]).rows && Committed(f, tx, f.live[tx]).rows[id] == f.rows[id]
  {
    hide Simulates, Inv, LogOk, Position, ScanOk, Emission, PendingEvent, Ids, Nonces, Run, State, Evolves;
    Turn(f, a, h, lease, tx);
  }

  // The log

  lemma EmitsElsewhere(row: Row, op: Op, id: Id)
    requires op.id != id
    ensures Word(Emits(row, op), id) == []
  {
    assert forall e :: e in Emits(row, op) ==> e.task == op.id;
    WordEmpty(Emits(row, op), id);
  }

  lemma {:induction false} EmissionTasks(s: Db, ops: seq<Op>, id: Id)
    requires id !in Ids(ops)
    ensures Word(Emission(s, ops), id) == []
    decreases |ops|
  {
    if ops == [] {
    } else {
      hide State, Ids, Word, Emits, Emission, RowBefore;
      var n := |ops| - 1;
      var es := Emits(RowBefore(State(s, ops[..n]), ops[n]), ops[n]);
      assert ops == ops[..n] + [ops[n]];
      OpsSnoc(ops[..n], ops[n]);
      EmissionTasks(s, ops[..n], id);
      EmissionSnoc(s, ops[..n], ops[n]);
      WordAppend(Emission(s, ops[..n]), es, id);
      EmitsElsewhere(RowBefore(State(s, ops[..n]), ops[n]), ops[n], id);
    }
  }

  lemma OwnAtCommit(f: Server, a: Db, h: map<TxId, seq<Op>>, lease: Time, tx: TxId)
    requires Simulates(f, a, h, lease) && tx in f.live && tx in h && f.live[tx].pc.ReadyToCommit?
    ensures Own(f.log, tx) == Emission(a, h[tx])
  {
    hide Inv, LogOk, Effect, Position, ScanOk, Emission, Ids, Nonces, Own, Bookkeeping;
    assert TxOk(f, tx, a, h[tx], lease);
    assert Own(f.log, tx) + [] == Own(f.log, tx);
  }

  /** What a transaction has logged about a task it does not hold: nothing. */
  lemma OwnElsewhere(f: Server, a: Db, h: map<TxId, seq<Op>>, lease: Time, tx: TxId, id: Id)
    requires Simulates(f, a, h, lease) && tx in f.live && tx in h && id !in Ids(h[tx])
    ensures Word(Own(f.log, tx), id) == []
  {
    hide Inv, LogOk, Effect, Position, ScanOk, Emission, Ids, Nonces, Own, Bookkeeping, PendingEvent;
    assert TxOk(f, tx, a, h[tx], lease);
    EmissionTasks(a, h[tx], id);
    WordAppend(Own(f.log, tx), PendingEvent(f.live[tx]), id);
  }

  lemma WordAfterCommit(a: Db, ops: seq<Op>, id: Id)
    ensures Word(State(a, ops).events, id) == Word(a.events, id) + Word(Emission(a, ops), id)
  {
    hide State, Emission, Word;
    EmissionIsSuffix(a, ops);
    WordAppend(a.events, Emission(a, ops), id);
  }

  /** The simulation relation's claim about the log, for one task. */
  lemma LogAt(f: Server, a: Db, h: map<TxId, seq<Op>>, lease: Time, tx: TxId, id: Id)
    requires Simulates(f, a, h, lease) && tx in f.live
    ensures Visible(f.log, f.committed, id) == Word(a.events, id)
    ensures Visible(f.log, f.committed + {tx}, id) == Word(a.events, id) + Word(Own(f.log, tx), id)
  {
    hide Inv, TxOk, Bookkeeping, Visible, Own, Word;
  }

  lemma CommitLog(f: Server, a: Db, h: map<TxId, seq<Op>>, lease: Time, tx: TxId)
    requires tx in f.live && tx in h && f.live[tx].pc.ReadyToCommit?
    requires Simulates(f, a, h, lease)
    ensures LogOk(Committed(f, tx, f.live[tx]), State(a, h[tx]))
  {
    hide Simulates, Visible, Own, Word, State, Emission, Ids;
    var g, b := Committed(f, tx, f.live[tx]), State(a, h[tx]);
    OwnAtCommit(f, a, h, lease, tx);
    forall id ensures Visible(g.log, g.committed, id) == Word(b.events, id) {
      LogAt(f, a, h, lease, tx, id);
      WordAfterCommit(a, h[tx], id);
    }
    forall x, id | x in g.live
      ensures Visible(g.log, g.committed + {x}, id) == Word(b.events, id) + Word(Own(g.log, x), id)
    {
      CommitLogOther(f, a, h, lease, tx, x, id);
    }
  }

  lemma CommitLogOther(f: Server, a: Db, h: map<TxId, seq<Op>>, lease: Time, tx: TxId, x: TxId, id: Id)
    requires tx in f.live && tx in h && f.live[tx].pc.ReadyToCommit? && x in f.live && x != tx
    requires Simulates(f, a, h, lease)
    ensures Visible(f.log, f.committed + {tx} + {x}, id) == Word(State(a, h[tx]).events, id) + Word(Own(f.log, x), id)
  {
    hide Simulates, Visible, Own, Word, State, Emission, Ids;
    Apart(f, a, h, lease, tx, x);
    OwnAtCommit(f, a, h, lease, tx);
    WordAfterCommit(a, h[tx], id);
    LogAt(f, a, h, lease, tx, id);
    LogAt(f, a, h, lease, x, id);
    if id in Ids(h[tx]) {
      OwnElsewhere(f, a, h, lease, x, id);
      VisibleWithout(f.log, f.committed + {tx}, x, id);
    } else {
      OwnElsewhere(f, a, h, lease, tx, id);
      VisibleWithout(f.log, f.committed + {x}, tx, id);
      assert f.committed + {x} + {tx} == f.committed + {tx} + {x};
    }
  }

  // The commit step

  lemma CommitBooks(f: Server, a: Db, h: map<TxId, seq<Op>>, lease: Time, tx: TxId)
    requires tx in f.live && tx in h
    requires Simulates(f, a, h, lease)
    ensures Bookkeeping(Committed(f, tx, f.live[tx]), State(a, h[tx]), h - {tx})
  {
    hide Inv, TxOk, LogOk, Nonces, State, Ids, Run, Evolves;
    CommitRows(f, a, h, lease, tx);
  }

  lemma SimCommit(f: Server, a: Db, h: map<TxId, seq<Op>>, lease: Time, tx: TxId)
    requires tx in f.live && tx in h && f.live[tx].pc.ReadyToCommit?
    requires Simulates(f, a, h, lease)
    ensures Simulates(Committed(f, tx, f.live[tx]), State(a, h[tx]), h - {tx}, lease)
    ensures Commits(a, f.live[tx].call, lease, h[tx], f.live[tx].pc.reply)
    ensures Timely(Done(CommitmentOf(f.live[tx], f.clock), h[tx]), lease)
  {
    hide Inv, TxOk, LogOk, Nonces, State, Ids, Run, Evolves, Commits, Bookkeeping;
    CommitRows(f, a, h, lease, tx);
    CommitBooks(f, a, h, lease, tx);
    CommitLog(f, a, h, lease, tx);
    Turn(f, a, h, lease, tx);
    var g := Committed(f, tx, f.live[tx]);
    forall x | x in g.live ensures x in h - {tx} && TxOk(g, x, State(a, h[tx]), (h - {tx})[x], lease) {
      Turn(f, a, h, lease, x);
      OtherTx(f, a, h, lease, tx, x);
    }
  }

  // The theorem

  /** One committed call of an atomic execution. */
  datatype Done = Done(what: Commitment, ops: seq<Op>)

  function After(s: Db, history: seq<Done>): Db {
    if history == [] then s else State(After(s, history[..|history| - 1]), history[|history| - 1].ops)
  }

  /** Each call commits, in turn, on the tables the ones before it left. */
  ghost predicate Serial(s: Db, history: seq<Done>, lease: Time) {
    history == [] ||
    var n := |history| - 1;
    && Serial(s, history[..n], lease)
    && Commits(After(s, history[..n]), history[n].what.call, lease, history[n].ops, history[n].what.reply)
  }

  function Outcomes(history: seq<Done>): seq<Commitment> {
    seq(|history|, i requires 0 <= i < |history| => history[i].what)
  }

  /** Every clock reading of the call was taken under the lock of its row, between begin and commit. */
  predicate Timely(d: Done, lease: Time) {
    && InWindow(d.what.held, d.what.at, d.ops, lease)
    && forall id :: id in d.what.held ==> d.what.begun <= d.what.held[id] <= d.what.at
  }

  lemma SerialSnoc(s: Db, history: seq<Done>, d: Done, lease: Time)
    requires Serial(s, history, lease) && Commits(After(s, history), d.what.call, lease, d.ops, d.what.reply)
    ensures Serial(s, history + [d], lease) && After(s, history + [d]) == State(After(s, history), d.ops)
    ensures Outcomes(history + [d]) == Outcomes(history) + [d.what]
  {
    assert (history + [d])[..|history|] == history;
  }

  lemma SimInit(lease: Time)
    ensures Simulates(INIT, EMPTY, map[], lease)
  {
    Reachable([]);
  }

  /** Any statement but a commit leaves the atomic state alone. */
  lemma SimStatement(f: Server, step: Step, a: Db, h: map<TxId, seq<Op>>, lease: Time) returns (h': map<TxId, seq<Op>>)
    requires Simulates(f, a, h, lease) && Enabled(f, step) && !step.Commit?
    ensures Simulates(Do(f, step, lease), a, h', lease)
  {
    hide Simulates;
    h' := h;
    if step.Tick? {
      SimTick(f, a, h, lease, step.now);
    } else if step.Begin? {
      SimBegin(f, a, h, lease, step.tx, step.call);
      h' := h[step.tx := []];
    } else {
      Turn(f, a, h, lease, step.tx);
      h' := SimStatementOf(f, step, a, h, lease);
    }
  }

  lemma SimStatementOf(f: Server, step: Step, a: Db, h: map<TxId, seq<Op>>, lease: Time)
    returns (h': map<TxId, seq<Op>>)
    requires !step.Tick? && !step.Begin? && !step.Commit?
    requires step.tx in f.live && step.tx in h && TxEnabled(f, step, f.live[step.tx])
    requires Simulates(f, a, h, lease)
    ensures Simulates(DoTx(f, step, f.live[step.tx], lease), a, h', lease)
  {
    hide Simulates;
    h' := h;
    match step {
      case CheckDepStep(tx) => SimCheckDep(f, a, h, lease, tx);
      case InsertStep(tx, id) => var op := SimInsert(f, a, h, lease, tx, id); h' := h[tx := h[tx] + [op]];
      case InsertConflict(tx) => SimInsertConflict(f, a, h, lease, tx);
      case ReadFingerprintStep(tx) => SimReadFingerprint(f, a, h, lease, tx);
      case ReadRowStep(tx, id) => SimReadRow(f, a, h, lease, tx, id);
      case LogStep(tx) => SimLog(f, a, h, lease, tx);
      case OpenScan(tx, queue) => SimOpenScan(f, a, h, lease, tx, queue);
      case LockStep(tx, id) => SimLock(f, a, h, lease, tx, id);
      case SkipStep(tx, id) => SimSkip(f, a, h, lease, tx, id);
      case CloseRecover(tx) => var more := SimCloseRecover(f, a, h, lease, tx); h' := h[tx := h[tx] + more];
      case ClosePropagate(tx) => var more := SimClosePropagate(f, a, h, lease, tx); h' := h[tx := h[tx] + more];
      case CloseEmpty(tx) => SimCloseEmpty(f, a, h, lease, tx);
      case CloseChoose(tx, token) => var op := SimCloseChoose(f, a, h, lease, tx, token); h' := h[tx := h[tx] + [op]];
      case LockRowStep(tx) => SimLockRow(f, a, h, lease, tx);
      case UpdateStep(tx, later) => var op := SimUpdate(f, a, h, lease, tx, later); h' := h[tx := h[tx] + [op]];
      case Refuse(tx, _) => SimRelease(f, a, h, lease, tx); h' := h - {tx};
      case Rollback(tx) => SimRelease(f, a, h, lease, tx); h' := h - {tx};
    }
  }

  /** After each step the committed rows are those of the calls committed so far. */
  ghost predicate TracksAt(steps: seq<Step>, i: int, history: seq<Done>, lease: Time)
    requires 0 <= i <= |steps|
  {
    && Legal(steps[..i], lease) && |CommitOrder(steps[..i], lease)| <= |history|
    && After(EMPTY, history[..|CommitOrder(steps[..i], lease)|]).tasks == Exec(steps[..i], lease).rows
  }

  ghost predicate Tracks(steps: seq<Step>, history: seq<Done>, lease: Time) {
    forall i :: 0 <= i <= |steps| ==> TracksAt(steps, i, history, lease)
  }

  predicate AllTimely(history: seq<Done>, lease: Time) {
    forall i :: 0 <= i < |history| ==> Timely(history[i], lease)
  }

  /** A longer history still accounts for the earlier steps. */
  lemma TracksOn(steps: seq<Step>, history: seq<Done>, more: seq<Done>, lease: Time)
    requires steps != [] && Legal(steps, lease) && Tracks(steps[..|steps| - 1], history, lease)
    requires |CommitOrder(steps, lease)| == |history + more|
    requires After(EMPTY, history + more).tasks == Exec(steps, lease).rows
    ensures Tracks(steps, history + more, lease)
  {
    hide After, Exec, Legal, CommitOrder;
    var n := |steps| - 1;
    forall i | 0 <= i <= |steps| ensures TracksAt(steps, i, history + more, lease) {
      if i <= n {
        assert TracksAt(steps[..n], i, history, lease);
        assert steps[..n][..i] == steps[..i];
        var m := |CommitOrder(steps[..i], lease)|;
        assert (history + more)[..m] == history[..m];
      } else {
        assert steps[..i] == steps;
        assert (history + more)[..|history + more|] == history + more;
      }
    }
  }

  /** One step of the server: nothing or, at a commit, one more call. */
  lemma SimStep(f: Server, step: Step, before: seq<Done>, h: map<TxId, seq<Op>>, lease: Time)
    returns (more: seq<Done>, h': map<TxId, seq<Op>>)
    requires Serial(EMPTY, before, lease) && AllTimely(before, lease) && Enabled(f, step)
    requires Simulates(f, After(EMPTY, before), h, lease)
    ensures Serial(EMPTY, before + more, lease) && AllTimely(before + more, lease)
    ensures Simulates(Do(f, step, lease), After(EMPTY, before + more), h', lease)
    ensures step.Commit? ==> step.tx in f.live && f.live[step.tx].pc.ReadyToCommit?
    ensures Outcomes(before + more)
         == Outcomes(before) + (if step.Commit? then [CommitmentOf(f.live[step.tx], f.clock)] else [])
  {
    hide Simulates, Commits, Enabled, Do, Timely, Serial, After, State;
    var a := After(EMPTY, before);
    if step.Commit? {
      var d := CommitDone(f, a, h, lease, step);
      SerialSnoc(EMPTY, before, d, lease);
      more, h' := [d], h - {step.tx};
    } else {
      more := [];
      h' := SimStatement(f, step, a, h, lease);
      assert before + [] == before;
      assert Outcomes(before) + [] == Outcomes(before);
    }
  }

  lemma {:induction false} Simulated(steps: seq<Step>, lease: Time) returns (history: seq<Done>, h: map<TxId, seq<Op>>)
    requires Legal(steps, lease)
    ensures Serial(EMPTY, history, lease) && Outcomes(history) == CommitOrder(steps, lease)
    ensures Simulates(Exec(steps, lease), After(EMPTY, history), h, lease)
    ensures AllTimely(history, lease) && Tracks(steps, history, lease)
    decreases |steps|
  {
    hide Simulates, Enabled, Do, Tracks, AllTimely;
    if steps == [] {
      SimInit(lease);
      history, h := [], map[];
      NothingTimely(lease);
      TracksNothing(lease);
    } else {
      hide Serial, After;
      var n := |steps| - 1;
      var before, more;
      before, h := Simulated(steps[..n], lease);
      more, h := SimStep(Exec(steps[..n], lease), steps[n], before, h, lease);
      history := before + more;
      SimRows(Exec(steps, lease), After(EMPTY, history), h, lease);
      assert |Outcomes(history)| == |history|;
      TracksOn(steps, before, more, lease);
    }
  }

  lemma NothingTimely(lease: Time)
    ensures AllTimely([], lease)
  {
  }

  lemma TracksNothing(lease: Time)
    ensures Tracks([], [], lease)
  {
    var none: seq<Step>, nothing: seq<Done> := [], [];
    forall i | 0 <= i <= 0 ensures TracksAt(none, i, nothing, lease) {
      assert none[..i] == [] && nothing[..0] == [];
    }
  }

  lemma SimRows(f: Server, a: Db, h: map<TxId, seq<Op>>, lease: Time)
    requires Simulates(f, a, h, lease)
    ensures a.tasks == f.rows
  {
    hide Inv, TxOk, LogOk;
  }

  lemma CommitDone(f: Server, a: Db, h: map<TxId, seq<Op>>, lease: Time, step: Step) returns (d: Done)
    requires Simulates(f, a, h, lease) && step.Commit? && Enabled(f, step)
    ensures Commits(a, d.what.call, lease, d.ops, d.what.reply) && Timely(d, lease)
    ensures Simulates(Do(f, step, lease), State(a, d.ops), h - {step.tx}, lease)
    ensures step.tx in f.live && f.live[step.tx].pc.ReadyToCommit?
    ensures d.what == CommitmentOf(f.live[step.tx], f.clock)
  {
    hide Simulates, Commits, State;
    var tx := step.tx;
    Turn(f, a, h, lease, tx);
    SimCommit(f, a, h, lease, tx);
    d := Done(CommitmentOf(f.live[tx], f.clock), h[tx]);
  }

  // Lock windows

  /**
   Commits are in clock order, and of two transactions that locked one row the
   later took its lock only after the commit of the earlier.
   */
  ghost predicate InTurn(order: seq<Commitment>, clock: Time) {
    && (forall i :: 0 <= i < |order| ==> order[i].at <= clock)
    && (forall i, j :: 0 <= i < j < |order| ==> order[i].at <= order[j].at)
    && (forall i, j, id :: 0 <= i < j < |order| && id in order[i].held && id in order[j].held ==>
          order[i].at <= order[j].held[id])
  }

  /** The same for the locks of open transactions. */
  ghost predicate Waited(order: seq<Commitment>, live: map<TxId, Txn>) {
    forall i, tx, id :: 0 <= i < |order| && tx in live && id in live[tx].held && id in order[i].held ==>
      order[i].at <= live[tx].held[id]
  }

  /** Row locks are kept or taken at the present clock. */
  ghost predicate LocksOn(f: Server, g: Server) {
    && f.clock <= g.clock
    && forall tx, id :: tx in g.live && id in g.live[tx].held ==>
         || (tx in f.live && id in f.live[tx].held && g.live[tx].held[id] == f.live[tx].held[id])
         || g.live[tx].held[id] >= f.clock
  }

  lemma TurnKept(f: Server, g: Server, order: seq<Commitment>)
    requires InTurn(order, f.clock) && Waited(order, f.live) && LocksOn(f, g)
    ensures InTurn(order, g.clock) && Waited(order, g.live)
  {
  }

  /** A statement changes only its own transaction, and takes at most one row lock. */
  lemma OwnLocks(f: Server, step: Step, lease: Time) returns (y: Id)
    requires !step.Tick? && !step.Begin? && step.tx in f.live && TxEnabled(f, step, f.live[step.tx])
    ensures var g, tx, t := DoTx(f, step, f.live[step.tx], lease), step.tx, f.live[step.tx];
      && f.clock <= g.clock
      && (g.live == f.live - {tx}
          || (tx in g.live && g.live == f.live[tx := g.live[tx]]
              && (g.live[tx].held == t.held || g.live[tx].held == Hold(t.held, y, f.clock))))
  {
    hide Qualifies, Visits, Lockable, Rewritten, RecoveryEvents, PropagationEvents, PendingEvent, ReplyAfterLog,
      Leased, Finished, KeyTaken, Owned, Existing, Hold;
    y := if step.InsertStep? || step.LockStep? then step.id
         else if step.LockRowStep? && f.live[step.tx].call.LeaseCall? then f.live[step.tx].call.id
         else "";
  }

  lemma StatementLocks(f: Server, step: Step, lease: Time)
    requires !step.Tick? && !step.Begin? && step.tx in f.live && TxEnabled(f, step, f.live[step.tx])
    ensures LocksOn(f, DoTx(f, step, f.live[step.tx], lease))
  {
    hide TxEnabled, DoTx;
    var y := OwnLocks(f, step, lease);
  }

  lemma StepLocks(f: Server, step: Step, lease: Time)
    requires Enabled(f, step)
    ensures LocksOn(f, Do(f, step, lease))
  {
    if !step.Tick? && !step.Begin? {
      hide TxEnabled, DoTx;
      StatementLocks(f, step, lease);
    }
  }

  /** Two open transactions hold no row in common. */
  lemma HeldApart(f: Server, a: Db, h: map<TxId, seq<Op>>, lease: Time, tx: TxId, x: TxId, id: Id)
    requires Simulates(f, a, h, lease) && tx in f.live && x in f.live && id in f.live[tx].held && id in f.live[x].held
    ensures x == tx
  {
    hide Simulates, TxOk, Position, ScanOk, InWindow;
    Turn(f, a, h, lease, tx);
    Turn(f, a, h, lease, x);
  }

  lemma CommitInTurn(f: Server, a: Db, h: map<TxId, seq<Op>>, lease: Time, tx: TxId, order: seq<Commitment>)
    requires tx in f.live && f.live[tx].pc.ReadyToCommit? && InTurn(order, f.clock) && Waited(order, f.live)
    requires Simulates(f, a, h, lease)
    ensures InTurn(order + [CommitmentOf(f.live[tx], f.clock)], f.clock)
    ensures Waited(order + [CommitmentOf(f.live[tx], f.clock)], f.live - {tx})
  {
    hide Simulates;
    var last, live := CommitmentOf(f.live[tx], f.clock), f.live - {tx};
    var all := order + [last];
    forall i, x, id | 0 <= i < |all| && x in live && id in live[x].held && id in all[i].held
      ensures all[i].at <= live[x].held[id]
    {
      if i == |order| { HeldApart(f, a, h, lease, tx, x, id); }
    }
  }

  lemma {:induction false} CommitsInTurn(steps: seq<Step>, lease: Time)
    requires Legal(steps, lease)
    ensures InTurn(CommitOrder(steps, lease), Exec(steps, lease).clock)
    ensures Waited(CommitOrder(steps, lease), Exec(steps, lease).live)
    decreases |steps|
  {
    hide Simulates, InTurn, Waited, LocksOn, Serial, Tracks, AllTimely;
    if steps == [] {
      NoTurns();
    } else {
      var n := |steps| - 1;
      var f, order, step := Exec(steps[..n], lease), CommitOrder(steps[..n], lease), steps[n];
      CommitsInTurn(steps[..n], lease);
      if step.Commit? {
        var history, h := Simulated(steps[..n], lease);
        CommitInTurn(f, After(EMPTY, history), h, lease, step.tx, order);
      } else {
        hide Do, Enabled;
        StepLocks(f, step, lease);
        TurnKept(f, Do(f, step, lease), order);
        assert order + [] == order;
      }
    }
  }

  lemma NoTurns()
    ensures InTurn([], 0) && Waited([], map[])
  {
  }

  /**
   Every legal interleaving commits, after every step, the same rows and gives the
   same answers as its committed calls run atomically in commit order. Each clock
   reading with which the atomic operations test a lease was taken while their
   transaction held the row, between the commit before and its own. Event ids are
   handed out before commit, so the whole table may be ordered differently; the
   events of each single task are not.
   */
  lemma Serializable(steps: seq<Step>, lease: Time) returns (history: seq<Done>)
    requires Legal(steps, lease)
    ensures Serial(EMPTY, history, lease)
    ensures Outcomes(history) == CommitOrder(steps, lease)
    ensures AllTimely(history, lease) && InTurn(Outcomes(history), Exec(steps, lease).clock)
    ensures After(EMPTY, history).tasks == Exec(steps, lease).rows && Tracks(steps, history, lease)
    ensures var f := Exec(steps, lease);
      forall id :: Visible(f.log, f.committed, id) == Word(After(EMPTY, history).events, id)
  {
    hide Simulates, Serial, Exec, AllTimely, Tracks, InTurn, Waited;
    var h;
    history, h := Simulated(steps, lease);
    Observed(Exec(steps, lease), After(EMPTY, history), h, lease);
    CommitsInTurn(steps, lease);
  }

  lemma Observed(f: Server, a: Db, h: map<TxId, seq<Op>>, lease: Time)
    requires Simulates(f, a, h, lease)
    ensures a.tasks == f.rows && Inv(a) && forall id :: Visible(f.log, f.committed, id) == Word(a.events, id)
  {
    hide Inv, TxOk, Visible, Own, Word;
  }

  /** So every committed row of every interleaving satisfies the row invariant and replays from its visible events. */
  lemma InterleavedRowsOk(steps: seq<Step>, lease: Time, id: Id)
    requires Legal(steps, lease) && id in Exec(steps, lease).rows
    ensures var f := Exec(steps, lease);
      && RowOk(f.rows[id])
      && Replay(Visible(f.log, f.committed, id)) == ViewOf(f.rows[id])
      && Spells(Actions(Visible(f.log, f.committed, id)), f.rows[id])
  {
    hide Simulates, Serial, Exec, Visible, Word, Replay, Spells, Actions;
    var history, h := Simulated(steps, lease);
    Observed(Exec(steps, lease), After(EMPTY, history), h, lease);
    InvAt(After(EMPTY, history), id);
  }

  lemma InvAt(a: Db, id: Id)
    requires Inv(a) && id in a.tasks
    ensures RowOk(a.tasks[id]) && Spells(Actions(Word(a.events, id)), a.tasks[id])
    ensures Replay(Word(a.events, id)) == ViewOf(a.tasks[id])
  {
    hide Word, Replay, Spells, Actions, Conserved;
  }

  /** The ownership test is made on the latest committed version of a row that no one else can change. */
  lemma TestedUnderLock(steps: seq<Step>, lease: Time, tx: TxId, later: Time, x: TxId)
    requires Legal(steps, lease) && tx in Exec(steps, lease).live
    requires CanUpdate(Exec(steps, lease), Exec(steps, lease).live[tx], later)
    ensures var f := Exec(steps, lease); var call := f.live[tx].call;
      && call.id in f.rows && call.id in f.locks && f.locks[call.id] == tx
      && Owned(f.rows[call.id], call.worker, call.token, f.clock)
      && (x in f.live && x != tx ==>
            call.id in Committed(f, x, f.live[x]).rows && Committed(f, x, f.live[x]).rows[call.id] == f.rows[call.id])
  {
    hide Simulates, Serial, Exec, Legal, Run, State;
    var history, h := Simulated(steps, lease);
    var f, a := Exec(steps, lease), After(EMPTY, history);
    UpdateReady(f, a, h, lease, tx, later);
    if x in f.live && x != tx {
      Turn(f, a, h, lease, x);
      LockedElsewhere(f, a, h, lease, x, tx);
    }
  }

  /**
   A row picked by a Claim statement is held, still satisfies the WHERE clause at the present clock,
   and no other commit changes it.
   */
  lemma SelectedUnderLock(steps: seq<Step>, lease: Time, tx: TxId, id: Id, x: TxId)
    requires Legal(steps, lease) && tx in Exec(steps, lease).live
    requires var t := Exec(steps, lease).live[tx]; t.scan.Scanning? && id in t.scan.locked
    ensures var f := Exec(steps, lease); var t := f.live[tx];
      && t.call.ClaimCall? && id in f.locks && f.locks[id] == tx && id in Sees(f.rows, t)
      && Qualifies(t.pc, t.call.kind, t.scan.snapshot, Sees(f.rows, t)[id], f.clock)
      && (x in f.live && x != tx && id in f.rows ==>
            id in Committed(f, x, f.live[x]).rows && Committed(f, x, f.live[x]).rows[id] == f.rows[id])
  {
    hide Simulates, Serial, Exec, Legal, Run, State, Position, Qualifies, TxOk;
    var history, h := Simulated(steps, lease);
    var f, a := Exec(steps, lease), After(EMPTY, history);
    Turn(f, a, h, lease, tx);
    assert LockedOk(f.rows, f.clock, f.locks, tx, f.live[tx], id);
    if x in f.live && x != tx {
      Turn(f, a, h, lease, x);
      LockedElsewhere(f, a, h, lease, x, tx);
    }
  }

  /** An error answer is right for the tables that the calls committed so far have left. */
  lemma RefusedRightly(steps: seq<Step>, lease: Time, tx: TxId, reply: Reply) returns (history: seq<Done>)
    requires Legal(steps, lease) && tx in Exec(steps, lease).live
    requires Fails(Exec(steps, lease), Exec(steps, lease).live[tx], reply)
    ensures Serial(EMPTY, history, lease) && Outcomes(history) == CommitOrder(steps, lease)
    ensures Refuses(After(EMPTY, history), Exec(steps, lease).live[tx].call, Exec(steps, lease).clock, reply)
  {
    hide Simulates, Serial, Exec, Legal, Outcomes, Inv, Fails, Refuses, Position;
    var h;
    history, h := Simulated(steps, lease);
    var f, a := Exec(steps, lease), After(EMPTY, history);
    Observed(f, a, h, lease);
    Turn(f, a, h, lease, tx);
    FailsRefuses(f, a, tx, f.live[tx], h[tx], lease, reply);
  }

  lemma FailsRefuses(f: Server, a: Db, tx: TxId, t: Txn, ops: seq<Op>, lease: Time, reply: Reply)
    requires a.tasks == f.rows && Fails(f, t, reply)
    requires Position(f.locks, tx, t, a, ops, lease)
    ensures Refuses(a, t.call, f.clock, reply)
  {
    hide Commits, RecoveredBy;
  }

  /** All operations of an atomic execution, in order. */
  function AllOps(history: seq<Done>): seq<Op> {
    if history == [] then [] else AllOps(history[..|history| - 1]) + history[|history| - 1].ops
  }

  /**
   An atomic execution is a run of row operations, so what all runs keep of the rows and of each task's
   events, all interleavings keep.
   */
  lemma {:induction false} SerialIsRun(history: seq<Done>, lease: Time)
    requires Serial(EMPTY, history, lease)
    ensures Run(EMPTY, AllOps(history)) && State(EMPTY, AllOps(history)) == After(EMPTY, history)
    decreases |history|
  {
    if history == [] {
    } else {
      var n := |history| - 1;
      SerialIsRun(history[..n], lease);
      hide Run, State;
      Append(EMPTY, AllOps(history[..n]), history[n].ops);
    }
  }
}
