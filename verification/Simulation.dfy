/** Each kind of SQL statement keeps the simulation relation of module Refinement. */
module Simulation {
  import opened Basics
  import opened Tasks
  import opened TaskLog
  import opened Requests
  import opened Transactions
  import opened Batches
  import opened Framing
  import opened Sql
  import opened Refinement

  // Statements that change no row

  /** Row locks are kept and the clock only moves on. */
  predicate Extends(held: map<Id, Time>, held': map<Id, Time>) {
    forall id :: id in held ==> id in held' && held'[id] == held[id]
  }

  lemma StillTimed(held: map<Id, Time>, held': map<Id, Time>, clock: Time, clock': Time, ops: seq<Op>, lease: Time)
    requires InWindow(held, clock, ops, lease) && Extends(held, held') && clock <= clock'
    ensures InWindow(held', clock', ops, lease)
  {
  }

  /** One more row lock, or the same one again. */
  lemma HeldMore(f: Server, tx: TxId, t: Txn, t': Txn, id: Id)
    requires HeldOk(f.locks, f.clock, tx, t) && Free(f, id, tx)
    requires t'.begun == t.begun && t'.held == Hold(t.held, id, f.clock)
    ensures HeldOk(f.locks[id := tx], f.clock, tx, t') && Extends(t.held, t'.held)
  {
  }

  lemma HeldSame(locks: map<Id, TxId>, clock: Time, clock': Time, tx: TxId, t: Txn, t': Txn)
    requires HeldOk(locks, clock, tx, t) && clock <= clock' && t'.begun == t.begun && t'.held == t.held
    ensures HeldOk(locks, clock', tx, t') && Extends(t.held, t'.held)
  {
  }

  /** A statement that adds no operation: only its place in the program and its scan must be checked. */
  lemma QuietTx(f: Server, g: Server, tx: TxId, a: Db, ops: seq<Op>, lease: Time, es: seq<Event>)
    requires Local(f, g, tx, es) && TxOk(f, tx, a, ops, lease)
    requires g.live[tx].call == f.live[tx].call && g.live[tx].writes == f.live[tx].writes
    requires Position(g.locks, tx, g.live[tx], a, ops, lease)
    requires ScanOk(g.rows, g.clock, g.locks, tx, g.live[tx])
    requires es + PendingEvent(g.live[tx]) == PendingEvent(f.live[tx])
    requires HeldOk(g.locks, g.clock, tx, g.live[tx]) && Extends(f.live[tx].held, g.live[tx].held)
    ensures TxOk(g, tx, a, ops, lease)
  {
    hide Run, State, Ids, NewKeys, Nonces, Position, ScanOk, Emission, PendingEvent, Own, Entries, HeldOk,
      InWindow, Extends;
    StillTimed(f.live[tx].held, g.live[tx].held, f.clock, g.clock, ops, lease);
    OwnAppend(f.log, tx, es, tx);
    var t, t' := f.live[tx], g.live[tx];
    assert Own(f.log, tx) + es + PendingEvent(t') == Own(f.log, tx) + (es + PendingEvent(t'));
  }

  lemma Quiet(f: Server, g: Server, a: Db, h: map<TxId, seq<Op>>, lease: Time, tx: TxId, es: seq<Event>)
    requires Simulates(f, a, h, lease) && Local(f, g, tx, es) && tx in h
    requires g.live[tx].call == f.live[tx].call && g.live[tx].writes == f.live[tx].writes
    requires Position(g.locks, tx, g.live[tx], a, h[tx], lease)
    requires ScanOk(g.rows, g.clock, g.locks, tx, g.live[tx])
    requires es + PendingEvent(g.live[tx]) == PendingEvent(f.live[tx])
    requires HeldOk(g.locks, g.clock, tx, g.live[tx]) && Extends(f.live[tx].held, g.live[tx].held)
    ensures Simulates(g, a, h, lease)
  {
    hide Inv, LogOk, Bookkeeping, Position, ScanOk, PendingEvent, TxOk, HeldOk, Extends;
    assert TxOk(f, tx, a, h[tx], lease);
    QuietTx(f, g, tx, a, h[tx], lease, es);
    LocalStep(f, g, a, h, lease, tx, es, h[tx], {});
    assert h[tx := h[tx]] == h;
  }

  /** What is known about the transaction whose turn it is. */
  lemma Turn(f: Server, a: Db, h: map<TxId, seq<Op>>, lease: Time, tx: TxId)
    requires Simulates(f, a, h, lease) && tx in f.live
    ensures tx in h && TxOk(f, tx, a, h[tx], lease) && a.tasks == f.rows
    ensures HeldOk(f.locks, f.clock, tx, f.live[tx]) && InWindow(f.live[tx].held, f.clock, h[tx], lease)
    ensures Position(f.locks, tx, f.live[tx], a, h[tx], lease)
    ensures ScanOk(f.rows, f.clock, f.locks, tx, f.live[tx])
  {
    hide Inv, LogOk, Position, ScanOk, Effect, Holding, Emission, PendingEvent, HeldOk, InWindow;
  }

  lemma SimCheckDep(f: Server, a: Db, h: map<TxId, seq<Op>>, lease: Time, tx: TxId)
    requires Simulates(f, a, h, lease) && tx in f.live && CanCheckDep(f, f.live[tx])
    ensures Simulates(DepChecked(f, tx, f.live[tx]), a, h, lease)
  {
    hide Simulates, TxOk, ScanOk;
    Turn(f, a, h, lease, tx);
    var g := DepChecked(f, tx, f.live[tx]);
    assert Local(f, g, tx, []);
    ScanKept(f, g, tx);
    HeldSame(f.locks, f.clock, g.clock, tx, f.live[tx], g.live[tx]);
    Quiet(f, g, a, h, lease, tx, []);
  }

  lemma ScanKept(f: Server, g: Server, tx: TxId)
    requires tx in f.live && tx in g.live && ScanOk(f.rows, f.clock, f.locks, tx, f.live[tx])
    requires !Selecting(f.live[tx]) && g.live[tx].scan == f.live[tx].scan
    ensures ScanOk(g.rows, g.clock, g.locks, tx, g.live[tx])
  {
  }

  lemma SimInsertConflict(f: Server, a: Db, h: map<TxId, seq<Op>>, lease: Time, tx: TxId)
    requires Simulates(f, a, h, lease) && tx in f.live && CanConflict(f, f.live[tx])
    ensures Simulates(At(f, tx, f.live[tx], ReadFingerprint), a, h, lease)
  {
    hide Simulates, TxOk, ScanOk;
    Turn(f, a, h, lease, tx);
    var g := At(f, tx, f.live[tx], ReadFingerprint);
    assert Local(f, g, tx, []);
    ScanKept(f, g, tx);
    HeldSame(f.locks, f.clock, g.clock, tx, f.live[tx], g.live[tx]);
    Quiet(f, g, a, h, lease, tx, []);
  }

  lemma SimReadFingerprint(f: Server, a: Db, h: map<TxId, seq<Op>>, lease: Time, tx: TxId)
    requires Simulates(f, a, h, lease) && tx in f.live && CanReadFingerprint(f, f.live[tx])
    ensures Simulates(At(f, tx, f.live[tx], ReadRow), a, h, lease)
  {
    hide Simulates, TxOk, ScanOk;
    Turn(f, a, h, lease, tx);
    var g := At(f, tx, f.live[tx], ReadRow);
    assert Local(f, g, tx, []);
    ScanKept(f, g, tx);
    HeldSame(f.locks, f.clock, g.clock, tx, f.live[tx], g.live[tx]);
    Quiet(f, g, a, h, lease, tx, []);
  }

  /** The row found under the key is the one whose fingerprint was compared. */
  lemma SameKeySameRow(a: Db, r: Request, id: Id)
    requires Inv(a) && id in a.tasks && a.tasks[id].request.key == r.key && exists x :: Existing(a.tasks, r, x)
    ensures Existing(a.tasks, r, id)
  {
    hide Logged, Conserved;
    var x :| Existing(a.tasks, r, x);
    assert KeysUnique(a.tasks);
  }

  lemma SimInv(f: Server, a: Db, h: map<TxId, seq<Op>>, lease: Time)
    requires Simulates(f, a, h, lease)
    ensures Inv(a)
  {
  }

  lemma SimReadRow(f: Server, a: Db, h: map<TxId, seq<Op>>, lease: Time, tx: TxId, id: Id)
    requires Simulates(f, a, h, lease) && tx in f.live && CanReadRow(f, f.live[tx], id)
    ensures Simulates(At(f, tx, f.live[tx], ReadyToCommit(CreatedTask(id))), a, h, lease)
  {
    hide Simulates, TxOk, ScanOk, Inv;
    Turn(f, a, h, lease, tx);
    SimInv(f, a, h, lease);
    SameKeySameRow(a, f.live[tx].call.request, id);
    var g := At(f, tx, f.live[tx], ReadyToCommit(CreatedTask(id)));
    assert Local(f, g, tx, []);
    ScanKept(f, g, tx);
    HeldSame(f.locks, f.clock, g.clock, tx, f.live[tx], g.live[tx]);
    Quiet(f, g, a, h, lease, tx, []);
  }

  lemma SimLog(f: Server, a: Db, h: map<TxId, seq<Op>>, lease: Time, tx: TxId)
    requires Simulates(f, a, h, lease) && tx in f.live && Logging(f.live[tx])
    ensures Simulates(EventLogged(f, tx, f.live[tx]), a, h, lease)
  {
    hide Simulates, TxOk, ScanOk, Commits, ReplyAfterLog;
    Turn(f, a, h, lease, tx);
    var g, es := EventLogged(f, tx, f.live[tx]), PendingEvent(f.live[tx]);
    assert Local(f, g, tx, es);
    ScanKept(f, g, tx);
    assert es + [] == es;
    HeldSame(f.locks, f.clock, g.clock, tx, f.live[tx], g.live[tx]);
    Quiet(f, g, a, h, lease, tx, es);
  }

  lemma SimOpenScan(f: Server, a: Db, h: map<TxId, seq<Op>>, lease: Time, tx: TxId, queue: seq<Id>)
    requires Simulates(f, a, h, lease) && tx in f.live && CanOpen(f, f.live[tx], queue)
    ensures Simulates(ScanOpened(f, tx, f.live[tx], queue), a, h, lease)
  {
    hide Simulates, Inv, Holding, ScanOk, RecoveredBy, Run, State, Emission, InScanOrder, Qualifies;
    Turn(f, a, h, lease, tx);
    SimInv(f, a, h, lease);
    var t, g := f.live[tx], ScanOpened(f, tx, f.live[tx], queue);
    RunInv(a, h[tx]);
    InvDeps(State(a, h[tx]));
    assert Local(f, g, tx, []);
    FreshScan(g, tx, queue);
    HeldSame(f.locks, f.clock, g.clock, tx, f.live[tx], g.live[tx]);
    Quiet(f, g, a, h, lease, tx, []);
  }

  lemma FreshScan(g: Server, tx: TxId, queue: seq<Id>)
    requires tx in g.live && Selecting(g.live[tx]) && Distinct(queue)
    requires g.live[tx].scan == Scanning(Sees(g.rows, g.live[tx]), queue, [])
    requires DepsClosed(Sees(g.rows, g.live[tx]))
    ensures ScanOk(g.rows, g.clock, g.locks, tx, g.live[tx])
  {
    assert [] + queue == queue;
  }

  lemma SimSkip(f: Server, a: Db, h: map<TxId, seq<Op>>, lease: Time, tx: TxId, id: Id)
    requires Simulates(f, a, h, lease) && tx in f.live && CanSkip(f, tx, f.live[tx], id)
    ensures Simulates(RowSkipped(f, tx, f.live[tx], id), a, h, lease)
  {
    hide Simulates, TxOk, RecoveredBy, Lockable;
    Turn(f, a, h, lease, tx);
    var t, g := f.live[tx], RowSkipped(f, tx, f.live[tx], id);
    assert Local(f, g, tx, []);
    SkippedRow(f, g, tx, id);
    HeldSame(f.locks, f.clock, g.clock, tx, f.live[tx], g.live[tx]);
    Quiet(f, g, a, h, lease, tx, []);
  }

  lemma SkippedRow(f: Server, g: Server, tx: TxId, id: Id)
    requires tx in f.live && AtRow(f.live[tx], id) && ScanOk(f.rows, f.clock, f.locks, tx, f.live[tx])
    requires g == RowSkipped(f, tx, f.live[tx], id)
    ensures ScanOk(g.rows, g.clock, g.locks, tx, g.live[tx])
  {
    hide Qualifies, Evolves, DepsClosed;
    var t, t' := f.live[tx], g.live[tx];
    DropNext(t.scan.locked, t.scan.queue);
    forall x | x in t'.scan.locked ensures LockedOk(g.rows, g.clock, g.locks, tx, t', x) {
      assert LockedOk(f.rows, f.clock, f.locks, tx, t, x);
    }
  }

  lemma DropNext(locked: seq<Id>, queue: seq<Id>)
    requires Distinct(locked + queue) && queue != []
    ensures Distinct(locked + queue[1..]) && Distinct((locked + [queue[0]]) + queue[1..])
  {
    var all, rest := locked + queue, locked + queue[1..];
    assert (locked + [queue[0]]) + queue[1..] == all;
    assert forall i :: 0 <= i < |rest| ==> rest[i] == all[if i < |locked| then i else i + 1];
  }

  lemma SimLock(f: Server, a: Db, h: map<TxId, seq<Op>>, lease: Time, tx: TxId, id: Id)
    requires Simulates(f, a, h, lease) && tx in f.live && CanLock(f, tx, f.live[tx], id)
    ensures Simulates(RowScanned(f, tx, f.live[tx], id), a, h, lease)
  {
    hide Simulates, TxOk, RecoveredBy, Qualifies, Evolves, DepsClosed, Distinct, HeldOk, InWindow, Extends;
    Turn(f, a, h, lease, tx);
    SeenIsIssued(f, a, h, lease, tx, id);
    var t, g := f.live[tx], RowScanned(f, tx, f.live[tx], id);
    assert Local(f, g, tx, []);
    LockedMore(f, g, tx, id);
    HeldMore(f, tx, t, g.live[tx], id);
    Quiet(f, g, a, h, lease, tx, []);
  }

  lemma LockedMore(f: Server, g: Server, tx: TxId, id: Id)
    requires tx in f.live && CanLock(f, tx, f.live[tx], id) && ScanOk(f.rows, f.clock, f.locks, tx, f.live[tx])
    requires g == RowScanned(f, tx, f.live[tx], id)
    ensures ScanOk(g.rows, g.clock, g.locks, tx, g.live[tx])
  {
    hide Qualifies, Evolves, DepsClosed, Distinct;
    var t, t' := f.live[tx], g.live[tx];
    DropNext(t.scan.locked, t.scan.queue);
    forall x | x in t'.scan.locked ensures LockedOk(g.rows, g.clock, g.locks, tx, t', x) {
      if x in t.scan.locked { assert LockedOk(f.rows, f.clock, f.locks, tx, t, x); }
    }
  }

  lemma SimCloseEmpty(f: Server, a: Db, h: map<TxId, seq<Op>>, lease: Time, tx: TxId)
    requires Simulates(f, a, h, lease) && tx in f.live && CanClose(f.live[tx], Choose) && f.live[tx].scan.locked == []
    ensures Simulates(NothingChosen(f, tx, f.live[tx]), a, h, lease)
  {
    hide Simulates, Holding, ScanOk, Emission, State, RecoveredBy, Commits, Run;
    Turn(f, a, h, lease, tx);
    var t, g := f.live[tx], NothingChosen(f, tx, f.live[tx]);
    NothingTaken(a, t.call, lease, h[tx]);
    assert Local(f, g, tx, []);
    IdleScan(g, tx);
    HeldSame(f.locks, f.clock, g.clock, tx, f.live[tx], g.live[tx]);
    Quiet(f, g, a, h, lease, tx, []);
  }

  lemma IdleScan(g: Server, tx: TxId)
    requires tx in g.live && g.live[tx].scan == Idle
    ensures ScanOk(g.rows, g.clock, g.locks, tx, g.live[tx])
  {
  }

  lemma NothingTaken(a: Db, call: Call, lease: Time, ops: seq<Op>)
    requires call.ClaimCall? && Run(a, ops) && RecoveredBy(ops)
    ensures Commits(a, call, lease, ops, NoTask)
  {
    hide Run;
    var ids, now, bs :| |ids| <= BATCH && |bs| <= BATCH && ops == ExpireOps(ids, now) + BlockOps(bs);
    assert ops == ExpireOps(ids, now) + BlockOps(bs) + [];
    assert TakeShape(a.tasks, call.worker, call.kind, lease, [], NoTask);
  }

  lemma SimLockRow(f: Server, a: Db, h: map<TxId, seq<Op>>, lease: Time, tx: TxId)
    requires Simulates(f, a, h, lease) && tx in f.live && CanLockRow(f, tx, f.live[tx])
    ensures Simulates(RowLocked(f, tx, f.live[tx]), a, h, lease)
  {
    hide Simulates, TxOk, ScanOk;
    Turn(f, a, h, lease, tx);
    SeenIsIssued(f, a, h, lease, tx, f.live[tx].call.id);
    var g := RowLocked(f, tx, f.live[tx]);
    assert Local(f, g, tx, []);
    ScanKept(f, g, tx);
    HeldMore(f, tx, f.live[tx], g.live[tx], f.live[tx].call.id);
    Quiet(f, g, a, h, lease, tx, []);
  }

  /** Ids of visible rows were handed out by the random source. */
  lemma SeenIsIssued(f: Server, a: Db, h: map<TxId, seq<Op>>, lease: Time, tx: TxId, id: Id)
    requires Simulates(f, a, h, lease) && tx in f.live && id in Sees(f.rows, f.live[tx])
    ensures id in f.nonces
  {
    hide LogOk, Position, ScanOk, Emission, PendingEvent, Logged, Conserved, Run, State, Ids;
    Turn(f, a, h, lease, tx);
  }

  // Statements that write rows

  /** A statement whose writes are the operations `more`. */
  ghost predicate Writes(f: Server, g: Server, tx: TxId, es: seq<Event>, a: Db, ops: seq<Op>, more: seq<Op>) {
    && Local(f, g, tx, es)
    && g.live[tx].call == f.live[tx].call && g.live[tx].scan == Idle
    && Run(State(a, ops), more) && State(State(a, ops), more).tasks == Sees(g.rows, g.live[tx])
    && g.live[tx].writes.Keys == f.live[tx].writes.Keys + Ids(more)
    && Holding(g.locks, g.keys, tx, more)
    && PendingEvent(f.live[tx]) == [] && Emission(State(a, ops), more) == es + PendingEvent(g.live[tx])
    && Nonces(more) <= g.nonces
  }

  /** And its operations were timed while their rows were locked. */
  ghost predicate Stamped(f: Server, g: Server, tx: TxId, more: seq<Op>, lease: Time)
    requires tx in f.live && tx in g.live
  {
    && HeldOk(g.locks, g.clock, tx, g.live[tx]) && Extends(f.live[tx].held, g.live[tx].held)
    && InWindow(g.live[tx].held, g.clock, more, lease)
  }

  lemma StampedAll(f: Server, g: Server, tx: TxId, ops: seq<Op>, more: seq<Op>, lease: Time)
    requires tx in f.live && tx in g.live && f.clock <= g.clock
    requires InWindow(f.live[tx].held, f.clock, ops, lease) && Stamped(f, g, tx, more, lease)
    ensures InWindow(g.live[tx].held, g.clock, ops + more, lease)
  {
    hide HeldOk, Timed;
    StillTimed(f.live[tx].held, g.live[tx].held, f.clock, g.clock, ops, lease);
  }

  lemma WritesEffect(f: Server, g: Server, tx: TxId, es: seq<Event>, a: Db, ops: seq<Op>, more: seq<Op>, lease: Time)
    requires tx in f.live && TxOk(f, tx, a, ops, lease) && Writes(f, g, tx, es, a, ops, more)
    ensures Effect(g.rows, g.live[tx], a, ops + more)
    ensures Holding(g.locks, g.keys, tx, ops + more)
    ensures Nonces(ops + more) <= g.nonces
  {
    hide Run, State, Ids, Nonces, NewKeys, Position, ScanOk, Emission, PendingEvent;
    Append(a, ops, more);
    OpsAppend(ops, more);
  }

  lemma WritesLog(f: Server, g: Server, tx: TxId, es: seq<Event>, a: Db, ops: seq<Op>, more: seq<Op>, lease: Time)
    requires tx in f.live && TxOk(f, tx, a, ops, lease) && Writes(f, g, tx, es, a, ops, more)
    ensures Own(g.log, tx) + PendingEvent(g.live[tx]) == Emission(a, ops + more)
  {
    hide Run, State, Ids, Nonces, NewKeys, Position, ScanOk, Emission, PendingEvent, Holding, Effect;
    OwnAppend(f.log, tx, es, tx);
    EmissionAppend(a, ops, more);
    var own, p := Own(f.log, tx), PendingEvent(g.live[tx]);
    assert own + [] == own;
    assert own + es + p == own + (es + p);
  }

  lemma Writing(f: Server, g: Server, a: Db, h: map<TxId, seq<Op>>, lease: Time, tx: TxId, es: seq<Event>,
                more: seq<Op>)
    requires Simulates(f, a, h, lease) && tx in f.live && tx in h && Writes(f, g, tx, es, a, h[tx], more)
    requires Position(g.locks, tx, g.live[tx], a, h[tx] + more, lease) && Nonces(more) !! f.nonces
    requires Stamped(f, g, tx, more, lease)
    ensures Simulates(g, a, h[tx := h[tx] + more], lease)
  {
    Turn(f, a, h, lease, tx);
    StampedAll(f, g, tx, h[tx], more, lease);
    hide InWindow, HeldOk, Extends;
    WritesEffect(f, g, tx, es, a, h[tx], more, lease);
    WritesLog(f, g, tx, es, a, h[tx], more, lease);
    IdleScan(g, tx);
    OpsAppend(h[tx], more);
    hide Simulates, Effect, Holding, Position, ScanOk, Emission, Nonces;
    assert TxOk(g, tx, a, h[tx] + more, lease);
    LocalStep(f, g, a, h, lease, tx, es, h[tx] + more, Nonces(more));
  }

  lemma OneOp(s: Db, op: Op)
    requires Guard(s, op)
    ensures Run(s, [op]) && State(s, [op]) == Apply(s, op) && Emission(s, [op]) == Emits(RowBefore(s, op), op)
    ensures Ids([op]) == {op.id} && Nonces([op]) == Nonce(op)
    ensures NewKeys([op]) == if op.Insert? then {op.request.key} else {}
  {
    hide Run, State, Emission, Ids, Nonces, NewKeys, Guard, Apply, RowBefore, Emits;
    Snoc(s, [], op);
    EmissionSnoc(s, [], op);
    OpsSnoc([], op);
    NoOps();
    EmptyState(s);
    EmissionNil(s);
    assert [] + [op] == [op];
  }

  lemma SimInsert(f: Server, a: Db, h: map<TxId, seq<Op>>, lease: Time, tx: TxId, id: Id) returns (op: Op)
    requires Simulates(f, a, h, lease) && tx in f.live && CanInsert(f, f.live[tx], id) && tx in h
    ensures Simulates(Inserted(f, tx, f.live[tx], id), a, h[tx := h[tx] + [op]], lease)
    ensures op == Insert(id, f.live[tx].call.request, f.clock)
  {
    var t, g := f.live[tx], Inserted(f, tx, f.live[tx], id);
    op := Insert(id, t.call.request, f.clock);
    InsertWrites(f, a, h, lease, tx, id, op);
    hide Simulates, Writes;
    InsertStamped(f, a, h, lease, tx, id, op);
    hide Stamped;
    Writing(f, g, a, h, lease, tx, [], [op]);
  }

  lemma InsertStamped(f: Server, a: Db, h: map<TxId, seq<Op>>, lease: Time, tx: TxId, id: Id, op: Op)
    requires tx in f.live && CanInsert(f, f.live[tx], id) && op == Insert(id, f.live[tx].call.request, f.clock)
    requires Simulates(f, a, h, lease)
    ensures Stamped(f, Inserted(f, tx, f.live[tx], id), tx, [op], lease)
  {
    hide Simulates, TxOk, Position, ScanOk;
    Turn(f, a, h, lease, tx);
    FreshInsert(f, a, h, lease, id);
    var t' := Inserted(f, tx, f.live[tx], id).live[tx];
    HeldMore(f, tx, f.live[tx], t', id);
    assert id !in f.live[tx].held;
  }

  /** Rows a scan has locked, timed at the present clock. */
  lemma BatchStamped(f: Server, tx: TxId, ids: seq<Id>, lease: Time)
    requires tx in f.live && HeldOk(f.locks, f.clock, tx, f.live[tx])
    requires forall id :: id in ids ==> id in f.locks && f.locks[id] == tx
    ensures InWindow(f.live[tx].held, f.clock, ExpireOps(ids, f.clock), lease)
    ensures InWindow(f.live[tx].held, f.clock, BlockOps(ids), lease)
  {
    forall i | 0 <= i < |ids| ensures ids[i] in f.live[tx].held && f.live[tx].held[ids[i]] <= f.clock {
      assert ids[i] in ids;
    }
  }

  /** One operation on a row that is locked, timed at the present clock. */
  lemma OneStamped(f: Server, g: Server, tx: TxId, op: Op, lease: Time)
    requires tx in f.live && tx in g.live && HeldOk(f.locks, f.clock, tx, f.live[tx])
    requires g.locks == f.locks && f.clock <= g.clock && g.live[tx].begun == f.live[tx].begun
    requires g.live[tx].held == f.live[tx].held && op.id in f.locks && f.locks[op.id] == tx
    requires !op.Block? && op.now == f.clock && (op.Take? || op.Beat? ==> op.until <= g.clock + lease)
    ensures Stamped(f, g, tx, [op], lease)
  {
    HeldSame(f.locks, f.clock, g.clock, tx, f.live[tx], g.live[tx]);
  }

  lemma FreshInsert(f: Server, a: Db, h: map<TxId, seq<Op>>, lease: Time, id: Id)
    requires Simulates(f, a, h, lease) && id !in f.nonces
    ensures id !in f.locks && id !in a.tasks && id !in a.issued
  {
    hide LogOk, TxOk, Logged, Conserved;
  }

  lemma IdleUnlessClaim(f: Server, tx: TxId)
    requires tx in f.live && ScanOk(f.rows, f.clock, f.locks, tx, f.live[tx]) && !f.live[tx].call.ClaimCall?
    ensures f.live[tx].scan == Idle
  {
  }

  lemma NothingYet(f: Server, a: Db, h: map<TxId, seq<Op>>, lease: Time, tx: TxId)
    requires Simulates(f, a, h, lease) && tx in f.live && tx in h && h[tx] == []
    ensures f.live[tx].writes == map[]
  {
    hide Inv, LogOk, Bookkeeping, Holding, Position, ScanOk, Emission, PendingEvent, Run, State;
    assert TxOk(f, tx, a, h[tx], lease);
    NoOps();
  }

  lemma InsertOp(a: Db, r: Request, id: Id, now: Time)
    requires InsertGuard(a, id, r)
    ensures Run(a, [Insert(id, r, now)])
    ensures State(a, [Insert(id, r, now)]).tasks == a.tasks + map[id := NewRow(r, now)]
    ensures Emission(a, [Insert(id, r, now)]) == [Event(id, Created, "")]
    ensures Ids([Insert(id, r, now)]) == {id} == Nonces([Insert(id, r, now)])
    ensures NewKeys([Insert(id, r, now)]) == {r.key}
  {
    OneOp(a, Insert(id, r, now));
  }

  lemma InsertReady(f: Server, a: Db, h: map<TxId, seq<Op>>, lease: Time, tx: TxId, id: Id)
    requires Simulates(f, a, h, lease) && tx in f.live && CanInsert(f, f.live[tx], id)
    ensures tx in h && h[tx] == [] && f.live[tx].writes == map[] && f.live[tx].scan == Idle
    ensures a.tasks == f.rows && id !in f.locks && InsertGuard(a, id, f.live[tx].call.request)
    ensures DepsStored(a.tasks, f.live[tx].call.request)
  {
    hide Simulates, ScanOk;
    Turn(f, a, h, lease, tx);
    FreshInsert(f, a, h, lease, id);
    var t := f.live[tx];
    assert h[tx] == [] && WellCalled(t.call);
    NothingYet(f, a, h, lease, tx);
    IdleUnlessClaim(f, tx);
    assert forall d :: d in t.call.request.deps ==> d in a.tasks;
  }

  lemma InsertWrites(f: Server, a: Db, h: map<TxId, seq<Op>>, lease: Time, tx: TxId, id: Id, op: Op)
    requires tx in f.live && tx in h && CanInsert(f, f.live[tx], id)
    requires op == Insert(id, f.live[tx].call.request, f.clock)
    requires Simulates(f, a, h, lease)
    ensures Writes(f, Inserted(f, tx, f.live[tx], id), tx, [], a, h[tx], [op])
    ensures Nonces([op]) !! f.nonces
    ensures var g := Inserted(f, tx, f.live[tx], id); Position(g.locks, tx, g.live[tx], a, h[tx] + [op], lease)
  {
    hide Simulates, Run, State, Emission, Ids, Nonces, NewKeys, InsertGuard, KeyTaken;
    InsertReady(f, a, h, lease, tx, id);
    var t := f.live[tx];
    InsertOp(a, t.call.request, id, f.clock);
    EmptyState(a);
    assert [] + [op] == [op];
    LocalInsert(f, tx, t, id);
    InsertCommits(a, t.call, lease, op);
    hide Local, Commits, InsertGuard, DepsStored;
    InsertEffect(f, a, tx, id, op);
  }

  lemma InsertCommits(a: Db, call: Call, lease: Time, op: Op)
    requires call.CreateCall? && op.Insert? && op.request == call.request && DepsStored(a.tasks, call.request)
    requires Run(a, [op])
    ensures Commits(a, call, lease, [op], CreatedTask(op.id))
  {
    hide Run;
  }

  lemma InsertEffect(f: Server, a: Db, tx: TxId, id: Id, op: Op)
    requires tx in f.live && CanInsert(f, f.live[tx], id) && op == Insert(id, f.live[tx].call.request, f.clock)
    requires State(a, []) == a && a.tasks == f.rows && f.live[tx].writes == map[] && f.live[tx].scan == Idle
    requires Local(f, Inserted(f, tx, f.live[tx], id), tx, [])
    requires Run(a, [op]) && State(a, [op]).tasks == a.tasks + map[id := NewRow(op.request, op.now)]
    requires Emission(a, [op]) == [Event(id, Created, "")]
    requires Ids([op]) == {id} == Nonces([op]) && NewKeys([op]) == {op.request.key}
    ensures Writes(f, Inserted(f, tx, f.live[tx], id), tx, [], a, [], [op])
  {
    hide Run, State, Emission, Ids, Nonces, NewKeys, Local, KeyTaken;
  }

  lemma LocalInsert(f: Server, tx: TxId, t: Txn, id: Id)
    requires tx in f.live && f.live[tx] == t && CanInsert(f, t, id) && id !in f.locks
    ensures Local(f, Inserted(f, tx, t, id), tx, [])
  {
  }

  lemma EmptyState(a: Db)
    ensures State(a, []) == a && Run(a, [])
  {
  }

  lemma SuffixEmission(s: Db, ops: seq<Op>, es: seq<Event>)
    requires State(s, ops).events == s.events + es
    ensures Emission(s, ops) == es
  {
    hide State, Emission;
    EmissionIsSuffix(s, ops);
    assert (s.events + Emission(s, ops))[|s.events|..] == Emission(s, ops);
    assert (s.events + es)[|s.events|..] == es;
  }

  lemma BatchSets(ids: seq<Id>, now: Time)
    ensures Ids(ExpireOps(ids, now)) == (set id | id in ids) == Ids(BlockOps(ids))
    ensures Nonces(ExpireOps(ids, now)) == {} == Nonces(BlockOps(ids))
    ensures NewKeys(ExpireOps(ids, now)) == {} == NewKeys(BlockOps(ids))
  {
    forall id | id in ids ensures id in Ids(ExpireOps(ids, now)) && id in Ids(BlockOps(ids)) {
      var i :| 0 <= i < |ids| && ids[i] == id;
      assert ExpireOps(ids, now)[i].id == id && ExpireOps(ids, now)[i] in ExpireOps(ids, now);
      assert BlockOps(ids)[i].id == id && BlockOps(ids)[i] in BlockOps(ids);
    }
  }

  /** The first UPDATE of recoverExpired as operations on what the transaction sees. */
  lemma RecoverOps(s: Db, ids: seq<Id>, now: Time)
    requires Distinct(ids) && AllExpired(s.tasks, ids, now)
    ensures Run(s, ExpireOps(ids, now))
    ensures State(s, ExpireOps(ids, now)).tasks == s.tasks + Rewritten(s.tasks, ids, Recovered)
    ensures Emission(s, ExpireOps(ids, now)) == RecoveryEvents(s.tasks, ids)
  {
    hide Run, State;
    ExpireBatch(s, ids, now);
    SuffixEmission(s, ExpireOps(ids, now), RecoveryEvents(s.tasks, ids));
    assert UpdateAll(s.tasks, ids, Recovered) == s.tasks + Rewritten(s.tasks, ids, Recovered);
  }

  lemma PropagateOps(s: Db, ids: seq<Id>)
    requires Distinct(ids) && AllBlocked(s, ids)
    ensures Run(s, BlockOps(ids))
    ensures State(s, BlockOps(ids)).tasks == s.tasks + Rewritten(s.tasks, ids, FailRow)
    ensures Emission(s, BlockOps(ids)) == PropagationEvents(ids)
  {
    hide Run, State;
    BlockBatch(s, ids);
    SuffixEmission(s, BlockOps(ids), PropagationEvents(ids));
    assert UpdateAll(s.tasks, ids, FailRow) == s.tasks + Rewritten(s.tasks, ids, FailRow);
  }

  /** What the rows locked by a scan satisfy in the transaction's own view. */
  lemma LockedRows(f: Server, a: Db, h: map<TxId, seq<Op>>, lease: Time, tx: TxId)
    requires Simulates(f, a, h, lease) && tx in f.live && f.live[tx].scan.Scanning?
    ensures tx in h && Run(a, h[tx]) && State(a, h[tx]).tasks == Sees(f.rows, f.live[tx])
    ensures f.live[tx].call.ClaimCall? && Distinct(f.live[tx].scan.locked)
    ensures |f.live[tx].scan.locked| <= Limit(f.live[tx].pc)
    ensures forall id :: id in f.live[tx].scan.locked ==> id in f.locks && f.locks[id] == tx
    ensures forall id :: id in f.live[tx].scan.locked ==>
      && id in Sees(f.rows, f.live[tx])
      && Qualifies(f.live[tx].pc, f.live[tx].call.kind, Sees(f.rows, f.live[tx]), Sees(f.rows, f.live[tx])[id], f.clock)
  {
    hide Simulates, Run, State, Holding, Position, Emission;
    Turn(f, a, h, lease, tx);
    var t := f.live[tx];
    DistinctFront(t.scan.locked, t.scan.queue);
    forall id | id in t.scan.locked
      ensures id in f.locks && f.locks[id] == tx && id in Sees(f.rows, t)
      ensures Qualifies(t.pc, t.call.kind, Sees(f.rows, t), Sees(f.rows, t)[id], f.clock)
    {
      assert LockedOk(f.rows, f.clock, f.locks, tx, t, id);
      QualifiesLater(t.pc, t.call.kind, t.scan.snapshot, Sees(f.rows, t), id, f.clock);
    }
  }

  lemma DistinctFront(locked: seq<Id>, queue: seq<Id>)
    requires Distinct(locked + queue)
    ensures Distinct(locked)
  {
    assert forall i :: 0 <= i < |locked| ==> locked[i] == (locked + queue)[i];
  }

  /** Finished parents stay finished, so a row that qualified by the snapshot qualifies by the current view. */
  lemma QualifiesLater(pc: Pc, kind: string, snapshot: map<Id, Row>, seen: map<Id, Row>, id: Id, clock: Time)
    requires Evolves(snapshot, seen) && DepsClosed(snapshot) && id in snapshot && id in seen
    requires Qualifies(pc, kind, snapshot, seen[id], clock)
    ensures Qualifies(pc, kind, seen, seen[id], clock)
  {
    if pc == Propagate {
      var d :| d in seen[id].request.deps && d in snapshot && snapshot[d].status == Failed;
      assert snapshot[d].Terminal() && seen[d].status == Failed;
    } else if pc == Choose {
      forall d | d in seen[id].request.deps && d in seen ensures seen[d].status == Completed {
        assert d in snapshot[id].request.deps && d in snapshot && snapshot[d].Terminal();
      }
    }
  }

  lemma SimCloseRecover(f: Server, a: Db, h: map<TxId, seq<Op>>, lease: Time, tx: TxId) returns (more: seq<Op>)
    requires Simulates(f, a, h, lease) && tx in f.live && CanClose(f.live[tx], Recover) && tx in h
    ensures Simulates(RecoverClosed(f, tx, f.live[tx]), a, h[tx := h[tx] + more], lease)
    ensures more == ExpireOps(f.live[tx].scan.locked, f.clock)
  {
    hide Simulates, Run, State, Emission, Ids, Nonces, NewKeys, Position, TxOk, Qualifies;
    var t, g := f.live[tx], RecoverClosed(f, tx, f.live[tx]);
    var ids, seen := t.scan.locked, Sees(f.rows, t);
    more := ExpireOps(ids, f.clock);
    RecoverWrites(f, a, h, lease, tx);
    RecoverPosition(f, a, h, lease, tx, ids, f.clock);
    BatchSets(ids, f.clock);
    ScanStamped(f, a, h, lease, tx);
    HeldSame(f.locks, f.clock, f.clock, tx, t, g.live[tx]);
    hide Writes, RecoverClosed, RecoveryEvents, ExpireOps, HeldOk, InWindow, Extends;
    Writing(f, g, a, h, lease, tx, RecoveryEvents(seen, ids), more);
  }

  lemma ScanStamped(f: Server, a: Db, h: map<TxId, seq<Op>>, lease: Time, tx: TxId)
    requires tx in f.live && f.live[tx].scan.Scanning?
    requires Simulates(f, a, h, lease)
    ensures HeldOk(f.locks, f.clock, tx, f.live[tx])
    ensures forall id :: id in f.live[tx].scan.locked ==> id in f.locks && f.locks[id] == tx
    ensures InWindow(f.live[tx].held, f.clock, ExpireOps(f.live[tx].scan.locked, f.clock), lease)
    ensures InWindow(f.live[tx].held, f.clock, BlockOps(f.live[tx].scan.locked), lease)
  {
    hide Simulates, TxOk, Position, ScanOk, HeldOk, InWindow, Qualifies, Run, State;
    Turn(f, a, h, lease, tx);
    LockedRows(f, a, h, lease, tx);
    BatchStamped(f, tx, f.live[tx].scan.locked, lease);
  }

  lemma RecoverPosition(f: Server, a: Db, h: map<TxId, seq<Op>>, lease: Time, tx: TxId, ids: seq<Id>, now: Time)
    requires Simulates(f, a, h, lease) && tx in f.live && CanClose(f.live[tx], Recover) && tx in h
    requires ids == f.live[tx].scan.locked
    ensures Position(f.locks, tx, RecoverClosed(f, tx, f.live[tx]).live[tx], a, h[tx] + ExpireOps(ids, now), lease)
  {
    hide Simulates, TxOk, RecoveryEvents, Rewritten;
    Turn(f, a, h, lease, tx);
    assert h[tx] + ExpireOps(ids, now) == ExpireOps(ids, now);
    assert |ids| <= BATCH;
  }

  lemma RecoverWrites(f: Server, a: Db, h: map<TxId, seq<Op>>, lease: Time, tx: TxId)
    requires Simulates(f, a, h, lease) && tx in f.live && CanClose(f.live[tx], Recover) && tx in h
    ensures var t := f.live[tx];
      Writes(f, RecoverClosed(f, tx, t), tx, RecoveryEvents(Sees(f.rows, t), t.scan.locked),
             a, h[tx], ExpireOps(t.scan.locked, f.clock))
  {
    hide Simulates, Run, State, Emission, Ids, Nonces, NewKeys, Distinct, Expired;
    LockedRows(f, a, h, lease, tx);
    var t, g := f.live[tx], RecoverClosed(f, tx, f.live[tx]);
    var ids, s := t.scan.locked, State(a, h[tx]);
    assert AllExpired(s.tasks, ids, f.clock);
    hide Qualifies;
    RecoverOps(s, ids, f.clock);
    BatchSets(ids, f.clock);
    RewrittenKeys(s.tasks, ids, Recovered);
    Overlay(f.rows, t.writes, Rewritten(s.tasks, ids, Recovered));
    hide RecoveryEvents, Rewritten, ExpireOps;
    assert RecoveryEvents(s.tasks, ids) + [] == RecoveryEvents(s.tasks, ids);
    LocalSame(f, g, tx, RecoveryEvents(s.tasks, ids));
  }

  lemma LocalSame(f: Server, g: Server, tx: TxId, es: seq<Event>)
    requires tx in f.live && tx in g.live && f.clock <= g.clock
    requires g == f.(live := f.live[tx := g.live[tx]], log := f.log + Entries(tx, es),
                     clock := g.clock, nonces := g.nonces)
    requires f.nonces <= g.nonces
    ensures Local(f, g, tx, es)
  {
  }

  lemma RewrittenKeys(seen: map<Id, Row>, ids: seq<Id>, rewrite: Row -> Row)
    requires forall id :: id in ids ==> id in seen
    ensures Rewritten(seen, ids, rewrite).Keys == set id | id in ids
  {
  }

  lemma Overlay(rows: map<Id, Row>, writes: map<Id, Row>, new_: map<Id, Row>)
    ensures (rows + writes) + new_ == rows + (writes + new_)
  {
  }

  // Failure propagation

  lemma SimClosePropagate(f: Server, a: Db, h: map<TxId, seq<Op>>, lease: Time, tx: TxId) returns (more: seq<Op>)
    requires Simulates(f, a, h, lease) && tx in f.live && CanClose(f.live[tx], Propagate) && tx in h
    ensures Simulates(PropagateClosed(f, tx, f.live[tx]), a, h[tx := h[tx] + more], lease)
    ensures more == BlockOps(f.live[tx].scan.locked)
  {
    hide Simulates, Run, State, Emission, Ids, Nonces, NewKeys, Position, TxOk, Qualifies;
    var t, g := f.live[tx], PropagateClosed(f, tx, f.live[tx]);
    var ids := t.scan.locked;
    more := BlockOps(ids);
    PropagateWrites(f, a, h, lease, tx);
    PropagatePosition(f, a, h, lease, tx, ids);
    BatchSets(ids, 0);
    ScanStamped(f, a, h, lease, tx);
    HeldSame(f.locks, f.clock, f.clock, tx, t, g.live[tx]);
    hide Writes, PropagateClosed, PropagationEvents, BlockOps, HeldOk, InWindow, Extends;
    Writing(f, g, a, h, lease, tx, PropagationEvents(ids), more);
  }

  lemma PropagatePosition(f: Server, a: Db, h: map<TxId, seq<Op>>, lease: Time, tx: TxId, ids: seq<Id>)
    requires Simulates(f, a, h, lease) && tx in f.live && CanClose(f.live[tx], Propagate) && tx in h
    requires ids == f.live[tx].scan.locked
    ensures Position(f.locks, tx, PropagateClosed(f, tx, f.live[tx]).live[tx], a, h[tx] + BlockOps(ids), lease)
  {
    hide Simulates, TxOk, PropagationEvents, Rewritten;
    Turn(f, a, h, lease, tx);
    var es, now :| |es| <= BATCH && h[tx] == ExpireOps(es, now);
    assert |ids| <= BATCH;
    assert RecoveredBy(ExpireOps(es, now) + BlockOps(ids));
  }

  lemma PropagateWrites(f: Server, a: Db, h: map<TxId, seq<Op>>, lease: Time, tx: TxId)
    requires Simulates(f, a, h, lease) && tx in f.live && CanClose(f.live[tx], Propagate) && tx in h
    ensures Writes(f, PropagateClosed(f, tx, f.live[tx]), tx, PropagationEvents(f.live[tx].scan.locked),
                   a, h[tx], BlockOps(f.live[tx].scan.locked))
  {
    hide Simulates, Run, State, Emission, Ids, Nonces, NewKeys, Distinct, SomeParentFailed;
    LockedRows(f, a, h, lease, tx);
    var t, g := f.live[tx], PropagateClosed(f, tx, f.live[tx]);
    var ids, s := t.scan.locked, State(a, h[tx]);
    assert AllBlocked(s, ids);
    hide Qualifies, AllBlocked;
    PropagateOps(s, ids);
    BatchSets(ids, 0);
    RewrittenKeys(s.tasks, ids, FailRow);
    Overlay(f.rows, t.writes, Rewritten(s.tasks, ids, FailRow));
    hide PropagationEvents, Rewritten, BlockOps;
    assert PropagationEvents(ids) + [] == PropagationEvents(ids);
    LocalSame(f, g, tx, PropagationEvents(ids));
  }

  // The claim itself

  lemma TakeOp(s: Db, op: Op)
    requires op.Take? && Guard(s, op)
    ensures Run(s, [op])
    ensures State(s, [op]).tasks == s.tasks + map[op.id := Leased(s.tasks[op.id], op.worker, op.token, op.until)]
    ensures Emission(s, [op]) == [Event(op.id, Claimed, op.worker)]
    ensures Ids([op]) == {op.id} && Nonces([op]) == {op.token} && NewKeys([op]) == {}
  {
    OneOp(s, op);
  }

  /** The UPDATE of Claim as an operation. */
  function TakeFor(clock: Time, t: Txn, token: string, lease: Time): (op: Op)
    requires CanClose(t, Choose) && t.scan.locked != []
    ensures op.Take? && op.id == t.scan.locked[0] && op.token == token
  {
    Take(t.scan.locked[0], t.call.worker, token, clock, clock + lease)
  }

  lemma SimCloseChoose(f: Server, a: Db, h: map<TxId, seq<Op>>, lease: Time, tx: TxId, token: string) returns (op: Op)
    requires tx in f.live && tx in h && CanChoose(f, f.live[tx], token)
    requires Simulates(f, a, h, lease)
    ensures Simulates(Chosen(f, tx, f.live[tx], token, lease), a, h[tx := h[tx] + [op]], lease)
    ensures op == TakeFor(f.clock, f.live[tx], token, lease)
  {
    hide Simulates, Run, State, Emission, Ids, Nonces, NewKeys, Position, TxOk, Qualifies, Guard;
    var t, g := f.live[tx], Chosen(f, tx, f.live[tx], token, lease);
    op := TakeFor(f.clock, t, token, lease);
    ChooseGuard(f, a, h, lease, tx, token);
    TakeOp(State(a, h[tx]), op);
    ChooseWrites(f, a, h, lease, tx, token);
    ChoosePosition(f, a, h, lease, tx, token);
    ScanStamped(f, a, h, lease, tx);
    OneStamped(f, g, tx, op, lease);
    hide Writes, Chosen, Stamped;
    Writing(f, g, a, h, lease, tx, [], [op]);
  }

  /** The chosen row is pending and ready in the view of the transaction, and the token is new. */
  ghost predicate Choosable(f: Server, t: Txn, s: Db, token: string, lease: Time)
    requires CanChoose(f, t, token)
  {
    var op := TakeFor(f.clock, t, token, lease);
    && Guard(s, op) && KindMatches(s.tasks[op.id], t.call.kind) && s.tasks == Sees(f.rows, t)
  }

  lemma ChooseGuard(f: Server, a: Db, h: map<TxId, seq<Op>>, lease: Time, tx: TxId, token: string)
    requires tx in f.live && tx in h && CanChoose(f, f.live[tx], token)
    requires Simulates(f, a, h, lease)
    ensures Choosable(f, f.live[tx], State(a, h[tx]), token, lease)
    ensures f.live[tx].scan.locked[0] in f.locks && f.locks[f.live[tx].scan.locked[0]] == tx
  {
    hide Simulates, Run, State, NoParentUnfinished;
    LockedRows(f, a, h, lease, tx);
    NonceUnused(f, a, h, lease, tx, token);
    WorkerNamed(f, a, h, lease, tx);
    assert f.live[tx].scan.locked[0] in f.live[tx].scan.locked;
  }

  lemma NonceUnused(f: Server, a: Db, h: map<TxId, seq<Op>>, lease: Time, tx: TxId, n: string)
    requires Simulates(f, a, h, lease) && tx in f.live && tx in h && n !in f.nonces
    ensures n !in State(a, h[tx]).issued
  {
    hide Inv, LogOk, Run, State, Emission, Position, ScanOk, PendingEvent, Holding, Nonces;
    assert TxOk(f, tx, a, h[tx], lease);
    Untouched(a, h[tx]);
  }

  lemma WorkerNamed(f: Server, a: Db, h: map<TxId, seq<Op>>, lease: Time, tx: TxId)
    requires Simulates(f, a, h, lease) && tx in f.live && tx in h && f.live[tx].call.ClaimCall?
    ensures f.live[tx].call.worker != ""
  {
    hide Inv, LogOk, Bookkeeping, Effect, Emission, Position, ScanOk, PendingEvent, Holding, Nonces;
    assert TxOk(f, tx, a, h[tx], lease);
  }

  lemma ChooseWrites(f: Server, a: Db, h: map<TxId, seq<Op>>, lease: Time, tx: TxId, token: string)
    requires tx in f.live && tx in h && CanChoose(f, f.live[tx], token)
    requires Simulates(f, a, h, lease)
    ensures Writes(f, Chosen(f, tx, f.live[tx], token, lease), tx, [],
                   a, h[tx], [TakeFor(f.clock, f.live[tx], token, lease)])
  {
    hide Simulates, Run, State, Emission, Ids, Nonces, NewKeys, Guard;
    ChooseGuard(f, a, h, lease, tx, token);
    ChooseEffect(f, tx, State(a, h[tx]), token, lease);
    var t, g := f.live[tx], Chosen(f, tx, f.live[tx], token, lease);
    var op := TakeFor(f.clock, t, token, lease);
    TakeOp(State(a, h[tx]), op);
    assert [] + PendingEvent(g.live[tx]) == [Event(op.id, Claimed, op.worker)];
    assert f.log + Entries(tx, []) == f.log;
    LocalSame(f, g, tx, []);
  }

  lemma ChooseEffect(f: Server, tx: TxId, s: Db, token: string, lease: Time)
    requires tx in f.live && CanChoose(f, f.live[tx], token) && Choosable(f, f.live[tx], s, token, lease)
    ensures var op, t' := TakeFor(f.clock, f.live[tx], token, lease), Chosen(f, tx, f.live[tx], token, lease).live[tx];
      && s.tasks + map[op.id := Leased(s.tasks[op.id], op.worker, op.token, op.until)] == Sees(f.rows, t')
      && t'.writes.Keys == f.live[tx].writes.Keys + {op.id}
  {
    hide Guard, Leased, Qualifies;
    ChosenWrites(f, tx, token, lease);
    ChosenRows(f.rows, f.live[tx], s, TakeFor(f.clock, f.live[tx], token, lease));
    hide Chosen;
  }

  lemma ChosenWrites(f: Server, tx: TxId, token: string, lease: Time)
    requires tx in f.live && CanChoose(f, f.live[tx], token)
    ensures var t, op := f.live[tx], TakeFor(f.clock, f.live[tx], token, lease);
      var g := Chosen(f, tx, t, token, lease);
      && op.id in Sees(f.rows, t) && tx in g.live
      && g.live[tx].writes == t.writes[op.id := Leased(Sees(f.rows, t)[op.id], op.worker, op.token, op.until)]
  {
    hide Leased, Qualifies;
  }

  lemma ChosenRows(rows: map<Id, Row>, t: Txn, s: Db, op: Op)
    requires op.Take? && op.id in s.tasks && s.tasks == Sees(rows, t)
    ensures var row := Leased(s.tasks[op.id], op.worker, op.token, op.until);
      rows + t.writes[op.id := row] == s.tasks + map[op.id := row]
  {
  }

  lemma ChoosePosition(f: Server, a: Db, h: map<TxId, seq<Op>>, lease: Time, tx: TxId, token: string)
    requires tx in f.live && tx in h && CanChoose(f, f.live[tx], token)
    requires Simulates(f, a, h, lease)
    ensures Position(f.locks, tx, Chosen(f, tx, f.live[tx], token, lease).live[tx], a,
                     h[tx] + [TakeFor(f.clock, f.live[tx], token, lease)], lease)
  {
    hide Simulates, State, Run, Emission, Ids, ScanOk, PendingEvent, Holding, Guard, RecoveredBy, Commits;
    ChooseGuard(f, a, h, lease, tx, token);
    Turn(f, a, h, lease, tx);
    TakeCommits(a, f.live[tx].call, lease, h[tx], TakeFor(f.clock, f.live[tx], token, lease));
  }

  lemma TakeCommits(a: Db, call: Call, lease: Time, ops: seq<Op>, op: Op)
    requires call.ClaimCall? && Run(a, ops) && RecoveredBy(ops) && op.Take? && Guard(State(a, ops), op)
    requires op.worker == call.worker && op.until == op.now + lease
    requires KindMatches(State(a, ops).tasks[op.id], call.kind)
    ensures Commits(a, call, lease, ops + [op], Granted(op.id, op.token))
  {
    hide Run, State, RecoveredBy, ClaimShape, NewKeys;
    assert op.id in State(a, ops).tasks;
    hide Guard;
    Snoc(a, ops, op);
    RecoveredNoInsert(ops);
    OldRow(a, ops, op.id);
    assert TakeShape(a.tasks, call.worker, call.kind, lease, [op], Granted(op.id, op.token));
    TakeShapes(a.tasks, call, lease, ops, op);
  }

  lemma TakeShapes(tasks: map<Id, Row>, call: Call, lease: Time, ops: seq<Op>, op: Op)
    requires call.ClaimCall? && RecoveredBy(ops) && op.Take?
    requires TakeShape(tasks, call.worker, call.kind, lease, [op], Granted(op.id, op.token))
    ensures ClaimShape(tasks, call.worker, call.kind, lease, ops + [op], Granted(op.id, op.token))
  {
    hide TakeShape, ExpireOps, BlockOps;
    var ids, now, bs :| |ids| <= BATCH && |bs| <= BATCH && ops == ExpireOps(ids, now) + BlockOps(bs);
    assert ops + [op] == ExpireOps(ids, now) + BlockOps(bs) + [op];
  }

  lemma RecoveredNoInsert(ops: seq<Op>)
    requires RecoveredBy(ops)
    ensures NewKeys(ops) == {} && forall op :: op in ops ==> !op.Insert?
  {
  }

  /** Without inserts, a row seen later was there at the start, with the same request. */
  lemma OldRow(a: Db, ops: seq<Op>, id: Id)
    requires Run(a, ops) && id in State(a, ops).tasks && forall op :: op in ops ==> !op.Insert?
    ensures id in a.tasks && a.tasks[id].request == State(a, ops).tasks[id].request
    decreases |ops|
  {
    if ops == [] {
    } else {
      var n := |ops| - 1;
      assert ops[n] in ops && !ops[n].Insert?;
      OldRow(a, ops[..n], id);
    }
  }

  // Lease updates

  function LeaseOp(clock: Time, t: Txn, later: Time, lease: Time): Op
    requires t.call.LeaseCall?
  {
    if t.call.action == Heartbeat then Beat(t.call.id, t.call.worker, t.call.token, clock, later + lease)
    else Finish(t.call.id, t.call.worker, t.call.token, clock, t.call.action == Complete, t.call.result)
  }

  lemma UpdateReady(f: Server, a: Db, h: map<TxId, seq<Op>>, lease: Time, tx: TxId, later: Time)
    requires tx in f.live && CanUpdate(f, f.live[tx], later)
    requires Simulates(f, a, h, lease)
    ensures tx in h && h[tx] == [] && f.live[tx].writes == map[] && f.live[tx].scan == Idle
    ensures WellCalled(f.live[tx].call)
    ensures a.tasks == f.rows && f.live[tx].call.id in f.locks && f.locks[f.live[tx].call.id] == tx
    ensures HeldOk(f.locks, f.clock, tx, f.live[tx])
  {
    hide Simulates, ScanOk, HeldOk, InWindow;
    Turn(f, a, h, lease, tx);
    NothingYet(f, a, h, lease, tx);
    IdleUnlessClaim(f, tx);
  }

  lemma LeaseOpRuns(a: Db, clock: Time, t: Txn, later: Time, lease: Time)
    requires t.call.LeaseCall? && WellCalled(t.call) && t.call.id in a.tasks
    requires Owned(a.tasks[t.call.id], t.call.worker, t.call.token, clock)
    ensures var op := LeaseOp(clock, t, later, lease);
      && Run(a, [op]) && State(a, [op]).tasks == a.tasks + map[op.id := NextRow(a.tasks[op.id], op)]
      && Emission(a, [op]) == Emits(a.tasks[op.id], op)
      && Ids([op]) == {op.id} && Nonces([op]) == {} && NewKeys([op]) == {}
  {
    OneOp(a, LeaseOp(clock, t, later, lease));
  }

  lemma LeaseCommits(a: Db, clock: Time, t: Txn, later: Time, lease: Time)
    requires t.call.LeaseCall? && later >= clock && (t.call.action == Heartbeat || ValidObject(t.call.result))
    requires Run(a, [LeaseOp(clock, t, later, lease)])
    ensures Commits(a, t.call, lease, [LeaseOp(clock, t, later, lease)], Updated(t.call.id))
  {
    hide Run, ValidObject;
  }

  lemma UpdateEffect(f: Server, a: Db, tx: TxId, later: Time, lease: Time)
    requires tx in f.live && CanUpdate(f, f.live[tx], later)
    requires State(a, []) == a && a.tasks == f.rows && f.live[tx].writes == map[] && f.live[tx].scan == Idle
    requires f.live[tx].call.id in f.locks && f.locks[f.live[tx].call.id] == tx
    requires var op := LeaseOp(f.clock, f.live[tx], later, lease);
      && Run(a, [op]) && State(a, [op]).tasks == a.tasks + map[op.id := NextRow(a.tasks[op.id], op)]
      && Emission(a, [op]) == Emits(a.tasks[op.id], op)
      && Ids([op]) == {op.id} && Nonces([op]) == {} && NewKeys([op]) == {}
    ensures Writes(f, RowUpdated(f, tx, f.live[tx], later, lease), tx, [],
                   a, [], [LeaseOp(f.clock, f.live[tx], later, lease)])
  {
    hide Run, State, Emission, Ids, Nonces, NewKeys, ValidObject, Emits, NextRow, PendingEvent, Owned;
    var g := RowUpdated(f, tx, f.live[tx], later, lease);
    UpdatedRow(f, a, tx, later, lease);
    hide RowUpdated;
    assert f.log + Entries(tx, []) == f.log;
    LocalSame(f, g, tx, []);
  }

  /** What the UPDATE of a lease writes and what is left to log. */
  lemma UpdatedRow(f: Server, a: Db, tx: TxId, later: Time, lease: Time)
    requires tx in f.live && CanUpdate(f, f.live[tx], later) && a.tasks == f.rows && f.live[tx].writes == map[]
    ensures var g, op := RowUpdated(f, tx, f.live[tx], later, lease), LeaseOp(f.clock, f.live[tx], later, lease);
      && op.id in f.rows && g == f.(live := f.live[tx := g.live[tx]], clock := later) && tx in g.live
      && g.live[tx].call == f.live[tx].call && g.live[tx].scan == f.live[tx].scan
      && g.live[tx].writes == map[op.id := NextRow(a.tasks[op.id], op)]
      && PendingEvent(f.live[tx]) == [] && [] + PendingEvent(g.live[tx]) == Emits(a.tasks[op.id], op)
  {
    hide ValidObject;
  }

  lemma SimUpdate(f: Server, a: Db, h: map<TxId, seq<Op>>, lease: Time, tx: TxId, later: Time) returns (op: Op)
    requires tx in f.live && tx in h && CanUpdate(f, f.live[tx], later)
    requires Simulates(f, a, h, lease)
    ensures Simulates(RowUpdated(f, tx, f.live[tx], later, lease), a, h[tx := h[tx] + [op]], lease)
    ensures op == LeaseOp(f.clock, f.live[tx], later, lease)
  {
    hide Simulates, Run, State, Emission, Ids, Nonces, NewKeys, ValidObject, Writes, Commits, HeldOk,
      Stamped, WellCalled;
    var t, g := f.live[tx], RowUpdated(f, tx, f.live[tx], later, lease);
    UpdateReady(f, a, h, lease, tx, later);
    op := LeaseOp(f.clock, t, later, lease);
    LeaseOpRuns(a, f.clock, t, later, lease);
    LeaseCommits(a, f.clock, t, later, lease);
    EmptyState(a);
    assert [] + [op] == [op];
    UpdateEffect(f, a, tx, later, lease);
    OneStamped(f, g, tx, op, lease);
    Writing(f, g, a, h, lease, tx, [], [op]);
  }

  // Beginning, waiting and giving up

  lemma SimTick(f: Server, a: Db, h: map<TxId, seq<Op>>, lease: Time, now: Time)
    requires now >= f.clock && Simulates(f, a, h, lease)
    ensures Simulates(f.(clock := now), a, h, lease)
  {
    hide Inv, TxOk, Visible, Own, Word, Nonces;
    var g := f.(clock := now);
    forall tx | tx in g.live ensures TxOk(g, tx, a, h[tx], lease) {
      assert Undisturbed(f, g, tx);
      UndisturbedTx(f, g, tx, a, h[tx], lease);
    }
  }

  lemma NewcomerOk(f: Server, tx: TxId, call: Call, a: Db, lease: Time)
    requires tx !in f.live && WellCalled(call) && a.tasks == f.rows && Own(f.log, tx) == []
    requires forall id :: id in f.locks ==> f.locks[id] != tx
    ensures TxOk(Begun(f, tx, call), tx, a, [], lease)
  {
    hide Own;
    NoOps();
    EmissionNil(a);
    EmptyState(a);
  }

  lemma NewcomerLog(f: Server, tx: TxId, call: Call, a: Db)
    requires LogOk(f, a) && Own(f.log, tx) == []
    ensures LogOk(Begun(f, tx, call), a)
  {
    hide Visible, Own;
    var g := Begun(f, tx, call);
    forall x, id | x in g.live
      ensures Visible(g.log, g.committed + {x}, id) == Word(a.events, id) + Word(Own(g.log, x), id)
    {
      if x == tx { VisibleWithout(f.log, f.committed, tx, id); }
    }
  }

  lemma BeginBooks(f: Server, a: Db, h: map<TxId, seq<Op>>, tx: TxId, call: Call)
    requires tx !in f.live && tx !in f.ended && Bookkeeping(f, a, h)
    ensures Bookkeeping(Begun(f, tx, call), a, h[tx := []])
  {
    NoOps();
    hide Nonces;
  }

  lemma BeginLeaves(f: Server, tx: TxId, call: Call, x: TxId)
    requires x in f.live && x != tx
    ensures Undisturbed(f, Begun(f, tx, call), x)
  {
  }

  lemma SimBegin(f: Server, a: Db, h: map<TxId, seq<Op>>, lease: Time, tx: TxId, call: Call)
    requires tx !in f.live && tx !in f.ended && WellCalled(call)
    requires Simulates(f, a, h, lease)
    ensures Simulates(Begun(f, tx, call), a, h[tx := []], lease)
  {
    hide Inv, TxOk, LogOk, Nonces, Undisturbed;
    NoEntries(f.log, tx);
    NewcomerOk(f, tx, call, a, lease);
    NewcomerLog(f, tx, call, a);
    BeginBooks(f, a, h, tx, call);
    hide Bookkeeping;
    var g := Begun(f, tx, call);
    forall x | x in g.live ensures TxOk(g, x, a, h[tx := []][x], lease) {
      if x != tx {
        BeginLeaves(f, tx, call, x);
        UndisturbedTx(f, g, x, a, h[x], lease);
      }
    }
  }

  lemma ReleaseBooks(f: Server, a: Db, h: map<TxId, seq<Op>>, tx: TxId)
    requires tx in f.live && Bookkeeping(f, a, h)
    ensures Bookkeeping(Release(f, tx), a, h - {tx})
  {
    hide Nonces;
  }

  lemma ReleaseLeaves(f: Server, tx: TxId, x: TxId)
    requires x in f.live && x != tx
    ensures Undisturbed(f, Release(f, tx), x)
  {
  }

  lemma SimRelease(f: Server, a: Db, h: map<TxId, seq<Op>>, lease: Time, tx: TxId)
    requires tx in f.live && Simulates(f, a, h, lease)
    ensures Simulates(Release(f, tx), a, h - {tx}, lease)
  {
    hide Inv, TxOk, Visible, Own, Word, Bookkeeping, Undisturbed;
    var g := Release(f, tx);
    ReleaseBooks(f, a, h, tx);
    forall x | x in g.live ensures x in h - {tx} && TxOk(g, x, a, (h - {tx})[x], lease) {
      Turn(f, a, h, lease, x);
      ReleaseLeaves(f, tx, x);
      UndisturbedTx(f, g, x, a, h[x], lease);
    }
  }
}
