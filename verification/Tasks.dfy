/**
 The two tables of the coordinator and the row operations that its SQL
 statements perform on them (internal/queue/store.go, internal/queue/schema.sql).

 Every transaction of the store is a short list of these operations. An
 operation has a guard, the WHERE clause under which the statement touches the
 row, and an effect on the row and on the event table.
 */
module Tasks {
  import opened Basics

  type Id = string
  type Time = int

  datatype Status = Pending | Running | Completed | Failed

  /** A normalized creation request: the columns that never change. */
  datatype Request = Request(
    key: string,
    title: string,
    kind: string,
    input: string,
    deps: seq<Id>,
    maxAttempts: int)

  /** SHA-256 of the request, taken to be injective. */
  datatype Fingerprint = Sha256(of: Request)

  datatype Row = Row(
    request: Request,
    fingerprint: Fingerprint,
    status: Status,
    worker: string,
    token: string,
    leaseUntil: Option<Time>,
    attempts: int,
    result: string,
    createdAt: Time)
  {
    predicate Terminal() { status == Completed || status == Failed }
  }

  datatype Action =
    | Created | Claimed | LeaseExpired | AttemptsExhausted
    | DependencyFailed | ReportedCompleted | ReportedFailed

  datatype Event = Event(task: Id, action: Action, worker: string)

  /** `issued` remembers every random id and token handed out so far. */
  datatype Db = Db(tasks: map<Id, Row>, events: seq<Event>, issued: set<string>)

  const EMPTY := Db(map[], [], {})

  /** One row operation; `now` is the clock reading its guard was tested with. */
  datatype Op =
    | Insert(id: Id, request: Request, now: Time)
    | Expire(id: Id, now: Time)
    | Block(id: Id)
    | Take(id: Id, worker: string, token: string, now: Time, until: Time)
    | Beat(id: Id, worker: string, token: string, now: Time, until: Time)
    | Finish(id: Id, worker: string, token: string, now: Time, ok: bool, result: string)

  /** A row as INSERT leaves it: given columns plus the defaults of the schema. */
  function NewRow(r: Request, now: Time): Row {
    Row(r, Sha256(r), Pending, "", "", None, 0, "{}", now)
  }

  predicate KeyTaken(tasks: map<Id, Row>, key: string) {
    exists id :: id in tasks && tasks[id].request.key == key
  }

  predicate Expired(row: Row, now: Time) {
    row.status == Running && row.leaseUntil.Some? && row.leaseUntil.value <= now
  }

  /** The ownership test of updateLease. */
  predicate Owned(row: Row, worker: string, token: string, now: Time) {
    && row.worker == worker && row.token == token && row.status == Running
    && row.leaseUntil.Some? && row.leaseUntil.value > now
  }

  predicate SomeParentFailed(tasks: map<Id, Row>, row: Row) {
    exists d :: d in row.request.deps && d in tasks && tasks[d].status == Failed
  }

  predicate NoParentUnfinished(tasks: map<Id, Row>, row: Row) {
    forall d :: d in row.request.deps && d in tasks ==> tasks[d].status == Completed
  }

  predicate InsertGuard(s: Db, id: Id, r: Request) {
    && id !in s.tasks && id !in s.issued && id != ""
    && !KeyTaken(s.tasks, r.key)
    && (forall d :: d in r.deps ==> d in s.tasks)
    && 1 <= r.maxAttempts <= 5
  }

  /** What the WHERE clause asks of the row itself. */
  predicate RowGuard(row: Row, op: Op) {
    match op
    case Insert(_, _, _) => false
    case Expire(_, now) => Expired(row, now)
    case Block(_) => row.status == Pending
    case Take(_, worker, token, _, _) => row.status == Pending && worker != "" && token != ""
    case Beat(_, worker, token, now, _) => worker != "" && token != "" && Owned(row, worker, token, now)
    case Finish(_, worker, token, now, _, _) => worker != "" && token != "" && Owned(row, worker, token, now)
  }

  /** What it asks of the parents of the row. */
  predicate ParentGuard(tasks: map<Id, Row>, row: Row, op: Op) {
    && (op.Block? ==> SomeParentFailed(tasks, row))
    && (op.Take? ==> NoParentUnfinished(tasks, row))
  }

  predicate Guard(s: Db, op: Op) {
    if op.Insert? then InsertGuard(s, op.id, op.request)
    else
      && op.id in s.tasks
      && RowGuard(s.tasks[op.id], op)
      && ParentGuard(s.tasks, s.tasks[op.id], op)
      && (op.Take? ==> op.token !in s.issued)
  }

  /** UPDATE of recoverExpired. */
  function Recovered(row: Row): Row {
    row.(status := if row.attempts >= row.request.maxAttempts then Failed else Pending,
         worker := "", token := "", leaseUntil := None)
  }

  function RecoveryAction(row: Row): Action {
    if Recovered(row).status == Failed then AttemptsExhausted else LeaseExpired
  }

  /** UPDATE of Claim. */
  function Leased(row: Row, worker: string, token: string, until: Time): Row {
    row.(status := Running, worker := worker, token := token, leaseUntil := Some(until), attempts := row.attempts + 1)
  }

  /** UPDATE of Complete and Fail. */
  function Finished(row: Row, ok: bool, result: string): Row {
    row.(status := if ok then Completed else Failed, result := result, leaseUntil := None, token := "")
  }

  function NextRow(row: Row, op: Op): Row {
    match op
    case Insert(_, r, now) => NewRow(r, now)
    case Expire(_, _) => Recovered(row)
    case Block(_) => row.(status := Failed)
    case Take(_, worker, token, _, until) => Leased(row, worker, token, until)
    case Beat(_, _, _, _, until) => row.(leaseUntil := Some(until))
    case Finish(_, _, _, _, ok, result) => Finished(row, ok, result)
  }

  /** The events an operation writes; a heartbeat writes none. */
  function Emits(row: Row, op: Op): seq<Event> {
    match op
    case Insert(id, _, _) => [Event(id, Created, "")]
    case Expire(id, _) => [Event(id, RecoveryAction(row), "")]
    case Block(id) => [Event(id, DependencyFailed, "")]
    case Take(id, worker, _, _, _) => [Event(id, Claimed, worker)]
    case Beat(_, _, _, _, _) => []
    case Finish(id, worker, _, _, ok, _) => [Event(id, if ok then ReportedCompleted else ReportedFailed, worker)]
  }

  /** The random value an operation uses up. */
  function Nonce(op: Op): set<string> {
    match op
    case Insert(id, _, _) => {id}
    case Take(_, _, token, _, _) => {token}
    case _ => {}
  }

  function RowBefore(s: Db, op: Op): Row {
    if op.id in s.tasks then s.tasks[op.id] else NewRow(Request("", "", "", "", [], 1), 0)
  }

  function Apply(s: Db, op: Op): Db {
    var row := RowBefore(s, op);
    Db(s.tasks[op.id := NextRow(row, op)], s.events + Emits(row, op), s.issued + Nonce(op))
  }

  // Runs

  function State(s: Db, ops: seq<Op>): Db {
    if ops == [] then s else Apply(State(s, ops[..|ops| - 1]), ops[|ops| - 1])
  }

  /** Every operation finds its guard true. */
  predicate Run(s: Db, ops: seq<Op>) {
    ops == [] || (Run(s, ops[..|ops| - 1]) && Guard(State(s, ops[..|ops| - 1]), ops[|ops| - 1]))
  }

  lemma Snoc(s: Db, ops: seq<Op>, op: Op)
    ensures State(s, ops + [op]) == Apply(State(s, ops), op)
    ensures Run(s, ops + [op]) <==> Run(s, ops) && Guard(State(s, ops), op)
  {
    assert (ops + [op])[..|ops|] == ops;
  }

  lemma {:induction false} Append(s: Db, a: seq<Op>, b: seq<Op>)
    ensures State(s, a + b) == State(State(s, a), b)
    ensures Run(s, a + b) <==> Run(s, a) && Run(State(s, a), b)
    decreases |b|
  {
    if b == [] {
      assert a + b == a;
    } else {
      var n := |b| - 1;
      assert a + b == a + b[..n] + [b[n]];
      Append(s, a, b[..n]);
      Snoc(s, a + b[..n], b[n]);
    }
  }

  /** A prefix of a run is a run, and the rest runs from where the prefix stops. */
  lemma Split(s: Db, ops: seq<Op>, i: nat)
    requires i <= |ops|
    ensures State(s, ops) == State(State(s, ops[..i]), ops[i..])
    ensures Run(s, ops) <==> Run(s, ops[..i]) && Run(State(s, ops[..i]), ops[i..])
  {
    hide State, Run;
    Append(s, ops[..i], ops[i..]);
    assert ops == ops[..i] + ops[i..];
  }

  /** Rows are never deleted and their request columns never change; terminal rows never change at all. */
  predicate Evolves(a: map<Id, Row>, b: map<Id, Row>) {
    forall id :: id in a ==>
      && id in b && b[id].request == a[id].request && b[id].fingerprint == a[id].fingerprint
      && b[id].createdAt == a[id].createdAt && a[id].attempts <= b[id].attempts
      && (a[id].Terminal() ==> b[id] == a[id])
  }

  lemma EvolvesTransitive(a: map<Id, Row>, b: map<Id, Row>, c: map<Id, Row>)
    requires Evolves(a, b) && Evolves(b, c)
    ensures Evolves(a, c)
  {
  }

  lemma StepEvolves(s: Db, op: Op)
    requires Guard(s, op)
    ensures Evolves(s.tasks, Apply(s, op).tasks) && s.issued <= Apply(s, op).issued
  {
  }

  lemma {:induction false} RunEvolves(s: Db, ops: seq<Op>)
    requires Run(s, ops)
    ensures Evolves(s.tasks, State(s, ops).tasks)
    ensures s.issued <= State(s, ops).issued
    decreases |ops|
  {
    if ops == [] {
    } else {
      hide Evolves, Apply, Guard;
      var t := State(s, ops[..|ops| - 1]);
      RunEvolves(s, ops[..|ops| - 1]);
      StepEvolves(t, ops[|ops| - 1]);
      EvolvesTransitive(s.tasks, t.tasks, State(s, ops).tasks);
    }
  }
}
