/**
 The same calls at the granularity of SQL statements (internal/queue/store.go:169-325).

 Transactions interleave. A statement sees the rows committed when it starts,
 plus its own transaction's writes. FOR UPDATE holds a row until the end of the
 transaction. A scan visits its rows in the order of the statement; SKIP LOCKED
 passes over rows held by others, and a row that changed since the statement's
 snapshot is tested again in its latest version.
 An uncommitted insert holds its request key. Event ids are handed out when an
 event is inserted, not when it is committed, and are lost on rollback.
 */
module Sql {
  import opened Basics
  import opened Tasks
  import opened Requests
  import opened Transactions
  import opened Batches

  type TxId = nat

  /** A row of the event table; its position is its id. It is visible once `owner` has committed. */
  datatype LogEntry = LogEntry(owner: TxId, event: Event)

  /** The next statement of a transaction. */
  datatype Pc =
    | CheckDep(i: nat) | ReadFingerprint | ReadRow | LogCreated(id: Id)
    | Recover | Propagate | Choose | LogClaimed(id: Id, token: string)
    | LockRow | UpdateRow | LogFinished
    | ReadyToCommit(reply: Reply)

  /** A selecting statement in progress: its snapshot, the rows still to visit and the rows it has locked. */
  datatype Scan = Idle | Scanning(snapshot: map<Id, Row>, queue: seq<Id>, locked: seq<Id>)

  /** An open transaction; `begun` and `held` are the clock at its begin and when it took each row lock. */
  datatype Txn = Txn(call: Call, pc: Pc, scan: Scan, writes: map<Id, Row>, begun: Time, held: map<Id, Time>)

  datatype Server = Server(
    clock: Time,
    rows: map<Id, Row>,
    log: seq<LogEntry>,
    locks: map<Id, TxId>,
    keys: map<string, TxId>,
    nonces: set<string>,
    live: map<TxId, Txn>,
    committed: set<TxId>,
    ended: set<TxId>)

  const INIT := Server(0, map[], [], map[], map[], {}, map[], {}, {})

  datatype Step =
    | Tick(now: Time)
    | Begin(tx: TxId, call: Call)
    | CheckDepStep(tx: TxId)
    | InsertStep(tx: TxId, id: Id)
    | InsertConflict(tx: TxId)
    | ReadFingerprintStep(tx: TxId)
    | ReadRowStep(tx: TxId, id: Id)
    | LogStep(tx: TxId)
    | OpenScan(tx: TxId, queue: seq<Id>)
    | LockStep(tx: TxId, id: Id)
    | SkipStep(tx: TxId, id: Id)
    | CloseRecover(tx: TxId)
    | ClosePropagate(tx: TxId)
    | CloseEmpty(tx: TxId)
    | CloseChoose(tx: TxId, token: string)
    | LockRowStep(tx: TxId)
    | UpdateStep(tx: TxId, later: Time)
    | Commit(tx: TxId)
    | Refuse(tx: TxId, reply: Reply)
    | Rollback(tx: TxId)

  function StartPc(call: Call): Pc {
    match call
    case CreateCall(_) => CheckDep(0)
    case ClaimCall(_, _) => Recover
    case LeaseCall(_, _, _, _, _) => LockRow
  }

  /** What a statement of this transaction sees: committed rows overlaid with its own writes. */
  function Sees(rows: map<Id, Row>, t: Txn): map<Id, Row> { rows + t.writes }

  predicate Free(f: Server, id: Id, tx: TxId) { id !in f.locks || f.locks[id] == tx }

  function Limit(pc: Pc): nat { if pc == Choose then 1 else BATCH }

  /** The WHERE clause of a selecting statement; parents are looked up in `tasks`. */
  predicate Qualifies(pc: Pc, kind: string, tasks: map<Id, Row>, row: Row, clock: Time) {
    match pc
    case Recover => Expired(row, clock)
    case Propagate => row.status == Pending && SomeParentFailed(tasks, row)
    case Choose => row.status == Pending && KindMatches(row, kind) && NoParentUnfinished(tasks, row)
    case _ => false
  }

  predicate Selecting(t: Txn) { t.call.ClaimCall? && (t.pc == Recover || t.pc == Propagate || t.pc == Choose) }

  /** The event that a logging statement is about to insert. */
  function PendingEvent(t: Txn): seq<Event> {
    match t.pc
    case LogCreated(id) => [Event(id, Created, "")]
    case LogClaimed(id, _) => if t.call.ClaimCall? then [Event(id, Claimed, t.call.worker)] else []
    case LogFinished =>
      if t.call.LeaseCall?
      then [Event(t.call.id, if t.call.action == Complete then ReportedCompleted else ReportedFailed, t.call.worker)]
      else []
    case _ => []
  }

  function ReplyAfterLog(t: Txn): Reply {
    match t.pc
    case LogCreated(id) => CreatedTask(id)
    case LogClaimed(id, token) => Granted(id, token)
    case _ => if t.call.LeaseCall? then Updated(t.call.id) else NoTask
  }

  predicate Logging(t: Txn) { t.pc.LogCreated? || t.pc.LogClaimed? || t.pc.LogFinished? }

  /** When the failing statement of a refused call answers with this error. */
  predicate Fails(f: Server, t: Txn, reply: Reply) {
    match t.pc
    case CheckDep(i) =>
      t.call.CreateCall? && i < |t.call.request.deps| && t.call.request.deps[i] !in f.rows && reply == Invalid
    case ReadFingerprint =>
      && t.call.CreateCall? && reply == Conflict
      && exists id :: id in f.rows && f.rows[id].request.key == t.call.request.key
                      && f.rows[id].fingerprint != Sha256(t.call.request)
    case LockRow => t.call.LeaseCall? && t.call.id !in f.rows && reply == NotFound
    case UpdateRow =>
      && t.call.LeaseCall?
      && if t.call.action != Heartbeat && !ValidObject(t.call.result) then reply == Invalid
         else reply == BadLease && t.call.id in f.rows
              && !Owned(f.rows[t.call.id], t.call.worker, t.call.token, f.clock)
    case _ => false
  }

  function SetTxn(f: Server, tx: TxId, t: Txn): Server { f.(live := f.live[tx := t]) }

  /** Taking a row lock, which may be one the transaction has already. */
  function Hold(held: map<Id, Time>, id: Id, now: Time): map<Id, Time> {
    if id in held then held else held[id := now]
  }

  function Entries(tx: TxId, events: seq<Event>): seq<LogEntry> {
    seq(|events|, i requires 0 <= i < |events| => LogEntry(tx, events[i]))
  }

  // Create

  /** SELECT EXISTS for one dependency. */
  predicate CanCheckDep(f: Server, t: Txn) {
    t.call.CreateCall? && t.pc.CheckDep? && t.pc.i < |t.call.request.deps| && t.call.request.deps[t.pc.i] in f.rows
  }

  function DepChecked(f: Server, tx: TxId, t: Txn): Server
    requires CanCheckDep(f, t)
  {
    SetTxn(f, tx, t.(pc := CheckDep(t.pc.i + 1)))
  }

  /** INSERT waits while another transaction holds the key. */
  predicate CanTryInsert(f: Server, t: Txn) {
    t.call.CreateCall? && t.pc == CheckDep(|t.call.request.deps|) && t.call.request.key !in f.keys
  }

  predicate CanInsert(f: Server, t: Txn, id: Id) {
    CanTryInsert(f, t) && !KeyTaken(f.rows, t.call.request.key) && id != "" && id !in f.nonces
  }

  function Inserted(f: Server, tx: TxId, t: Txn, id: Id): Server
    requires CanInsert(f, t, id)
  {
    SetTxn(f, tx, t.(pc := LogCreated(id), writes := map[id := NewRow(t.call.request, f.clock)],
                     held := Hold(t.held, id, f.clock)))
      .(locks := f.locks[id := tx], keys := f.keys[t.call.request.key := tx], nonces := f.nonces + {id})
  }

  /** ON CONFLICT DO NOTHING. */
  predicate CanConflict(f: Server, t: Txn) { CanTryInsert(f, t) && KeyTaken(f.rows, t.call.request.key) }

  predicate CanReadFingerprint(f: Server, t: Txn) {
    t.call.CreateCall? && t.pc == ReadFingerprint && exists id :: id in f.rows && Existing(f.rows, t.call.request, id)
  }

  predicate CanReadRow(f: Server, t: Txn, id: Id) {
    t.call.CreateCall? && t.pc == ReadRow && id in f.rows && f.rows[id].request.key == t.call.request.key
  }

  function At(f: Server, tx: TxId, t: Txn, pc: Pc): Server { SetTxn(f, tx, t.(pc := pc)) }

  function EventLogged(f: Server, tx: TxId, t: Txn): Server {
    SetTxn(f, tx, t.(pc := ReadyToCommit(ReplyAfterLog(t)))).(log := f.log + Entries(tx, PendingEvent(t)))
  }

  // Claim

  /** The ORDER BY of a selecting statement. */
  predicate InScanOrder(pc: Pc, tasks: map<Id, Row>, a: Id, b: Id)
    requires a in tasks && b in tasks
  {
    && (pc == Recover ==> LeaseEnd(tasks[a]) <= LeaseEnd(tasks[b]))
    && (pc == Choose ==> Older(tasks, a, b))
  }

  /**
   The rows a scan will visit, in order: every row that satisfies the WHERE
   clause now, and possibly rows that come to satisfy it while the clock moves.
   */
  predicate Visits(pc: Pc, kind: string, tasks: map<Id, Row>, clock: Time, queue: seq<Id>) {
    && Distinct(queue) && (forall id :: id in queue ==> id in tasks)
    && (forall id :: id in tasks && Qualifies(pc, kind, tasks, tasks[id], clock) ==> id in queue)
    && (forall i, j :: 0 <= i < j < |queue| ==> InScanOrder(pc, tasks, queue[i], queue[j]))
  }

  predicate CanOpen(f: Server, t: Txn, queue: seq<Id>) {
    Selecting(t) && t.scan.Idle? && Visits(t.pc, t.call.kind, Sees(f.rows, t), f.clock, queue)
  }

  function ScanOpened(f: Server, tx: TxId, t: Txn, queue: seq<Id>): Server {
    SetTxn(f, tx, t.(scan := Scanning(Sees(f.rows, t), queue, [])))
  }

  /** The row is free and satisfies the WHERE clause in the snapshot and in its latest version. */
  predicate Lockable(f: Server, tx: TxId, t: Txn, id: Id)
    requires t.call.ClaimCall? && t.scan.Scanning?
  {
    && Free(f, id, tx) && id in t.scan.snapshot && id in Sees(f.rows, t)
    && Qualifies(t.pc, t.call.kind, t.scan.snapshot, t.scan.snapshot[id], f.clock)
    && Qualifies(t.pc, t.call.kind, t.scan.snapshot, Sees(f.rows, t)[id], f.clock)
  }

  /** `id` is the next row to visit. */
  predicate AtRow(t: Txn, id: Id) {
    && Selecting(t) && t.scan.Scanning? && |t.scan.locked| < Limit(t.pc)
    && t.scan.queue != [] && t.scan.queue[0] == id
  }

  /** FOR UPDATE takes the next row. */
  predicate CanLock(f: Server, tx: TxId, t: Txn, id: Id) { AtRow(t, id) && Lockable(f, tx, t, id) }

  function RowScanned(f: Server, tx: TxId, t: Txn, id: Id): Server
    requires AtRow(t, id)
  {
    SetTxn(f, tx, t.(scan := t.scan.(queue := t.scan.queue[1..], locked := t.scan.locked + [id]),
                     held := Hold(t.held, id, f.clock)))
      .(locks := f.locks[id := tx])
  }

  /** SKIP LOCKED passes over a row that another transaction holds or that no longer qualifies. */
  predicate CanSkip(f: Server, tx: TxId, t: Txn, id: Id) { AtRow(t, id) && !Lockable(f, tx, t, id) }

  function RowSkipped(f: Server, tx: TxId, t: Txn, id: Id): Server
    requires AtRow(t, id)
  {
    SetTxn(f, tx, t.(scan := t.scan.(queue := t.scan.queue[1..])))
  }

  /** A scan ends when every row has been visited or the LIMIT is reached. */
  predicate CanClose(t: Txn, pc: Pc) {
    && Selecting(t) && t.pc == pc && t.scan.Scanning?
    && (t.scan.queue == [] || |t.scan.locked| == Limit(pc))
  }

  /** The rows an UPDATE writes for the ids it locked. */
  function Rewritten(seen: map<Id, Row>, ids: seq<Id>, rewrite: Row -> Row): map<Id, Row> {
    map id | id in ids && id in seen :: rewrite(seen[id])
  }

  function RecoverClosed(f: Server, tx: TxId, t: Txn): Server
    requires CanClose(t, Recover)
  {
    var ids, seen := t.scan.locked, Sees(f.rows, t);
    SetTxn(f, tx, t.(pc := Propagate, scan := Idle, writes := t.writes + Rewritten(seen, ids, Recovered)))
      .(log := f.log + Entries(tx, RecoveryEvents(seen, ids)))
  }

  function PropagateClosed(f: Server, tx: TxId, t: Txn): Server
    requires CanClose(t, Propagate)
  {
    var ids, seen := t.scan.locked, Sees(f.rows, t);
    SetTxn(f, tx, t.(pc := Choose, scan := Idle,
                     writes := t.writes + Rewritten(seen, ids, FailRow)))
      .(log := f.log + Entries(tx, PropagationEvents(ids)))
  }

  function NothingChosen(f: Server, tx: TxId, t: Txn): Server {
    SetTxn(f, tx, t.(pc := ReadyToCommit(NoTask), scan := Idle))
  }

  predicate CanChoose(f: Server, t: Txn, token: string) {
    && CanClose(t, Choose) && t.scan.locked != [] && t.scan.locked[0] in Sees(f.rows, t)
    && token != "" && token !in f.nonces
  }

  function Chosen(f: Server, tx: TxId, t: Txn, token: string, lease: Time): Server
    requires CanChoose(f, t, token)
  {
    var id := t.scan.locked[0];
    SetTxn(f, tx, t.(pc := LogClaimed(id, token), scan := Idle,
                     writes := t.writes[id := Leased(Sees(f.rows, t)[id], t.call.worker, token, f.clock + lease)]))
      .(nonces := f.nonces + {token})
  }

  // Heartbeat, Complete, Fail

  predicate CanLockRow(f: Server, tx: TxId, t: Txn) {
    t.call.LeaseCall? && t.pc == LockRow && t.call.id in f.rows && Free(f, t.call.id, tx)
  }

  function RowLocked(f: Server, tx: TxId, t: Txn): Server
    requires CanLockRow(f, tx, t)
  {
    SetTxn(f, tx, t.(pc := UpdateRow, held := Hold(t.held, t.call.id, f.clock))).(locks := f.locks[t.call.id := tx])
  }

  /** The ownership test reads the clock while the row is locked. */
  predicate CanUpdate(f: Server, t: Txn, later: Time) {
    && t.call.LeaseCall? && t.pc == UpdateRow && later >= f.clock
    && (t.call.action == Heartbeat || ValidObject(t.call.result))
    && t.call.id in Sees(f.rows, t) && Owned(Sees(f.rows, t)[t.call.id], t.call.worker, t.call.token, f.clock)
  }

  function RowUpdated(f: Server, tx: TxId, t: Txn, later: Time, lease: Time): Server
    requires CanUpdate(f, t, later)
  {
    var row := Sees(f.rows, t)[t.call.id];
    var row' := if t.call.action == Heartbeat then row.(leaseUntil := Some(later + lease))
                else Finished(row, t.call.action == Complete, t.call.result);
    SetTxn(f, tx, t.(pc := if t.call.action == Heartbeat then ReadyToCommit(Updated(t.call.id)) else LogFinished,
                     writes := t.writes[t.call.id := row']))
      .(clock := later)
  }

  /** End of a transaction: its locks and keys are released. */
  function Release(f: Server, tx: TxId): Server {
    f.(locks := map id | id in f.locks && f.locks[id] != tx :: f.locks[id],
       keys := map k | k in f.keys && f.keys[k] != tx :: f.keys[k],
       live := f.live - {tx},
       ended := f.ended + {tx})
  }

  function Committed(f: Server, tx: TxId, t: Txn): Server {
    Release(f, tx).(rows := f.rows + t.writes, committed := f.committed + {tx})
  }

  function Begun(f: Server, tx: TxId, call: Call): Server {
    SetTxn(f, tx, Txn(call, StartPc(call), Idle, map[], f.clock, map[]))
  }

  predicate Enabled(f: Server, step: Step) {
    if step.Tick? then step.now >= f.clock
    else if step.Begin? then step.tx !in f.live && step.tx !in f.ended && WellCalled(step.call)
    else step.tx in f.live && TxEnabled(f, step, f.live[step.tx])
  }

  predicate TxEnabled(f: Server, step: Step, t: Txn) {
    match step
    case Tick(_) => false
    case Begin(_, _) => false
    case CheckDepStep(_) => CanCheckDep(f, t)
    case InsertStep(_, id) => CanInsert(f, t, id)
    case InsertConflict(_) => CanConflict(f, t)
    case ReadFingerprintStep(_) => CanReadFingerprint(f, t)
    case ReadRowStep(_, id) => CanReadRow(f, t, id)
    case LogStep(_) => Logging(t)
    case OpenScan(_, queue) => CanOpen(f, t, queue)
    case LockStep(tx, id) => CanLock(f, tx, t, id)
    case SkipStep(tx, id) => CanSkip(f, tx, t, id)
    case CloseRecover(_) => CanClose(t, Recover)
    case ClosePropagate(_) => CanClose(t, Propagate)
    case CloseEmpty(_) => CanClose(t, Choose) && t.scan.locked == []
    case CloseChoose(_, token) => CanChoose(f, t, token)
    case LockRowStep(tx) => CanLockRow(f, tx, t)
    case UpdateStep(_, later) => CanUpdate(f, t, later)
    case Commit(_) => t.pc.ReadyToCommit?
    case Refuse(_, reply) => Fails(f, t, reply)
    case Rollback(_) => true
  }

  function Do(f: Server, step: Step, lease: Time): Server
    requires Enabled(f, step)
  {
    if step.Tick? then f.(clock := step.now)
    else if step.Begin? then Begun(f, step.tx, step.call)
    else DoTx(f, step, f.live[step.tx], lease)
  }

  function DoTx(f: Server, step: Step, t: Txn, lease: Time): Server
    requires TxEnabled(f, step, t)
  {
    match step
    case CheckDepStep(tx) => DepChecked(f, tx, t)
    case InsertStep(tx, id) => Inserted(f, tx, t, id)
    case InsertConflict(tx) => At(f, tx, t, ReadFingerprint)
    case ReadFingerprintStep(tx) => At(f, tx, t, ReadRow)
    case ReadRowStep(tx, id) => At(f, tx, t, ReadyToCommit(CreatedTask(id)))
    case LogStep(tx) => EventLogged(f, tx, t)
    case OpenScan(tx, queue) => ScanOpened(f, tx, t, queue)
    case LockStep(tx, id) => RowScanned(f, tx, t, id)
    case SkipStep(tx, id) => RowSkipped(f, tx, t, id)
    case CloseRecover(tx) => RecoverClosed(f, tx, t)
    case ClosePropagate(tx) => PropagateClosed(f, tx, t)
    case CloseEmpty(tx) => NothingChosen(f, tx, t)
    case CloseChoose(tx, token) => Chosen(f, tx, t, token, lease)
    case LockRowStep(tx) => RowLocked(f, tx, t)
    case UpdateStep(tx, later) => RowUpdated(f, tx, t, later, lease)
    case Commit(tx) => Committed(f, tx, t)
    case Refuse(tx, _) => Release(f, tx)
    case Rollback(tx) => Release(f, tx)
  }

  // Runs of the server

  predicate Legal(steps: seq<Step>, lease: Time)
    decreases |steps|, 0
  {
    steps == [] ||
    var n := |steps| - 1;
    Legal(steps[..n], lease) && Enabled(Exec(steps[..n], lease), steps[n])
  }

  function Exec(steps: seq<Step>, lease: Time): Server
    requires Legal(steps, lease)
    decreases |steps|, 1
  {
    if steps == [] then INIT
    else
      var n := |steps| - 1;
      Do(Exec(steps[..n], lease), steps[n], lease)
  }

  /** The events of one task that readers can see, in the order of their ids. */
  function Visible(log: seq<LogEntry>, owners: set<TxId>, id: Id): seq<Event> {
    if log == [] then []
    else
      var n := |log| - 1;
      Visible(log[..n], owners, id) +
      (if log[n].owner in owners && log[n].event.task == id then [log[n].event] else [])
  }

  /** A committed call, its answer, and the clock at its begin, at each of its row locks and at its commit. */
  datatype Commitment = Commitment(call: Call, reply: Reply, begun: Time, held: map<Id, Time>, at: Time)

  function CommitmentOf(t: Txn, now: Time): Commitment
    requires t.pc.ReadyToCommit?
  {
    Commitment(t.call, t.pc.reply, t.begun, t.held, now)
  }

  /** What was committed, in commit order. */
  function CommitOrder(steps: seq<Step>, lease: Time): seq<Commitment>
    requires Legal(steps, lease)
    decreases |steps|
  {
    if steps == [] then []
    else
      var n := |steps| - 1;
      var f := Exec(steps[..n], lease);
      CommitOrder(steps[..n], lease) +
      (if steps[n].Commit? then [CommitmentOf(f.live[steps[n].tx], f.clock)] else [])
  }
}
