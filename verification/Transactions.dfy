/**
 The calls of the store as atomic transactions (internal/queue/store.go:169-325):
 which row operations a committed call performs, what it answers, and when it is
 refused. Rows locked by other transactions may be skipped, so Claim is not a
 function; a Claim that meets no lock is described by `FullClaim`.
 */
module Transactions {
  import opened Basics
  import opened Strings
  import opened Tasks
  import opened TaskLog
  import opened Dependencies
  import opened Requests

  datatype LeaseAction = Heartbeat | Complete | Fail

  datatype Call =
    | CreateCall(request: Request)
    | ClaimCall(worker: string, kind: string)
    | LeaseCall(action: LeaseAction, id: Id, worker: string, token: string, result: string)

  datatype Reply =
    | CreatedTask(id: Id) | NoTask | Granted(id: Id, token: string) | Updated(id: Id)
    | Invalid | Conflict | BadLease | NotFound

  /** Rows touched by one recovery statement. */
  const BATCH := 100

  /** Argument checks made before a transaction starts. */
  predicate WellCalled(call: Call) {
    match call
    case CreateCall(r) => 1 <= r.maxAttempts <= 5
    case ClaimCall(worker, kind) => 1 <= Utf8Length(worker) <= 100 && Utf8Length(kind) <= 64
    case LeaseCall(_, _, worker, token, _) =>
      worker != "" && Utf8Length(worker) <= 100 && token != "" && Utf8Length(token) == 32
  }

  function ExpireOps(ids: seq<Id>, now: Time): seq<Op> {
    seq(|ids|, i requires 0 <= i < |ids| => Expire(ids[i], now))
  }

  function BlockOps(ids: seq<Id>): seq<Op> {
    seq(|ids|, i requires 0 <= i < |ids| => Block(ids[i]))
  }

  predicate KindMatches(row: Row, kind: string) { kind == "" || row.request.kind == kind }

  /** The last statement of Claim: nothing taken, or one row with the wanted kind. */
  predicate TakeShape(tasks: map<Id, Row>, worker: string, kind: string, lease: Time, take: seq<Op>, reply: Reply) {
    if take == [] then reply == NoTask
    else
      && |take| == 1 && take[0].Take?
      && take[0].worker == worker && take[0].until == take[0].now + lease
      && take[0].id in tasks && KindMatches(tasks[take[0].id], kind)
      && reply == Granted(take[0].id, take[0].token)
  }

  ghost predicate ClaimShape(tasks: map<Id, Row>, worker: string, kind: string, lease: Time, ops: seq<Op>,
                             reply: Reply) {
    exists expired: seq<Id>, now: Time, blocked: seq<Id>, take: seq<Op> ::
      && |expired| <= BATCH && |blocked| <= BATCH
      && ops == ExpireOps(expired, now) + BlockOps(blocked) + take
      && TakeShape(tasks, worker, kind, lease, take, reply)
  }

  predicate LeaseShape(call: Call, lease: Time, ops: seq<Op>, reply: Reply)
    requires call.LeaseCall?
  {
    && |ops| == 1 && reply == Updated(call.id)
    && if call.action == Heartbeat
       then ops[0].Beat? && ops[0] == Beat(call.id, call.worker, call.token, ops[0].now, ops[0].until)
            && ops[0].until >= ops[0].now + lease
       else ops[0].Finish? && ValidObject(call.result)
            && ops[0] == Finish(call.id, call.worker, call.token, ops[0].now, call.action == Complete, call.result)
  }

  /** A task stored under this key by an equal request. */
  predicate Existing(tasks: map<Id, Row>, r: Request, id: Id) {
    id in tasks && tasks[id].request.key == r.key && tasks[id].fingerprint == Sha256(r)
  }

  predicate DepsStored(tasks: map<Id, Row>, r: Request) { forall d :: d in r.deps ==> d in tasks }

  /** What a committed call did to the tables `s`, as operations, and what it answered. */
  ghost predicate Commits(s: Db, call: Call, lease: Time, ops: seq<Op>, reply: Reply) {
    && Run(s, ops)
    && match call
       case CreateCall(r) =>
         && DepsStored(s.tasks, r) && reply.CreatedTask?
         && ((|ops| == 1 && ops[0].Insert? && ops[0].request == r && ops[0].id == reply.id)
             || (ops == [] && Existing(s.tasks, r, reply.id)))
       case ClaimCall(worker, kind) => ClaimShape(s.tasks, worker, kind, lease, ops, reply)
       case LeaseCall(_, _, _, _, _) => LeaseShape(call, lease, ops, reply)
  }

  /** When a call may be answered with an error; it then changes nothing. */
  predicate Refuses(s: Db, call: Call, now: Time, reply: Reply) {
    match call
    case CreateCall(r) =>
      if !DepsStored(s.tasks, r) then reply == Invalid
      else reply == Conflict && exists id :: id in s.tasks && s.tasks[id].request.key == r.key
                                             && s.tasks[id].fingerprint != Sha256(r)
    case ClaimCall(_, _) => false
    case LeaseCall(action, id, worker, token, result) =>
      if id !in s.tasks then reply == NotFound
      else if action != Heartbeat && !ValidObject(result) then reply == Invalid
      else reply == BadLease && !Owned(s.tasks[id], worker, token, now)
  }

  // Idempotent creation

  /** After a successful Create the row is there, under its key and fingerprint. */
  lemma CreateStores(s: Db, r: Request, lease: Time, ops: seq<Op>, id: Id)
    requires Inv(s) && Commits(s, CreateCall(r), lease, ops, CreatedTask(id))
    ensures Inv(State(s, ops)) && Existing(State(s, ops).tasks, r, id)
  {
    if ops != [] {
      assert ops[..0] == [];
      StepInv(s, ops[0]);
    }
  }

  lemma {:induction false} RunInv(s: Db, ops: seq<Op>)
    requires Inv(s) && Run(s, ops)
    ensures Inv(State(s, ops))
    decreases |ops|
  {
    if ops == [] {
    } else {
      RunInv(s, ops[..|ops| - 1]);
      StepInv(State(s, ops[..|ops| - 1]), ops[|ops| - 1]);
    }
  }

  /** A key that is taken decides every Create that uses it. */
  lemma KeyHeld(s: Db, r: Request, id: Id, r2: Request, lease: Time, ops: seq<Op>, reply: Reply)
    requires Inv(s) && Existing(s.tasks, r, id) && r2.key == r.key
    requires Commits(s, CreateCall(r2), lease, ops, reply)
    ensures ops == [] && reply == CreatedTask(id) && r2 == r
  {
    assert RowOk(s.tasks[id]);
    assert KeyTaken(s.tasks, r2.key);
    assert KeysUnique(s.tasks) && s.tasks[reply.id].request.key == s.tasks[id].request.key;
  }

  lemma KeyRefusal(s: Db, r: Request, id: Id, r2: Request, lease: Time, now: Time, reply: Reply)
    requires Inv(s) && Existing(s.tasks, r, id) && r2.key == r.key
    ensures r2 == r ==> !Refuses(s, CreateCall(r2), now, reply)
    ensures r2 == r ==> Commits(s, CreateCall(r2), lease, [], CreatedTask(id))
    ensures r2 != r ==> Refuses(s, CreateCall(r2), now, if DepsStored(s.tasks, r2) then Conflict else Invalid)
  {
    hide Spells, Replay, Word, Conserved;
    assert RowOk(s.tasks[id]) && ParentsOk(s.tasks, s.tasks[id]);
    assert KeysUnique(s.tasks);
  }

  /**
   Whatever happens after a successful Create, a later Create whose request
   normalizes to the same one commits, answers the same id and writes nothing,
   and one that reuses the key for a different request is refused.
   */
  lemma IdempotentCreate(s: Db, first: Raw, lease: Time, ops: seq<Op>, id: Id, later: seq<Op>, again: Raw,
                         ops': seq<Op>, reply: Reply, now: Time)
    requires Inv(s) && Normalized(first).Some? && Normalized(again).Some? && first.key == again.key
    requires Commits(s, CreateCall(Normalized(first).value), lease, ops, CreatedTask(id))
    requires Run(State(s, ops), later)
    ensures var s2, r, r2 := State(State(s, ops), later), Normalized(first).value, Normalized(again).value;
      && (r2 == r ==> !Refuses(s2, CreateCall(r2), now, reply))
      && (r2 == r ==> Commits(s2, CreateCall(r2), lease, [], CreatedTask(id)))
      && (r2 == r && Commits(s2, CreateCall(r2), lease, ops', reply) ==> ops' == [] && reply == CreatedTask(id))
      && (r2 != r ==> Refuses(s2, CreateCall(r2), now, if DepsStored(s2.tasks, r2) then Conflict else Invalid))
      && (r2 != r ==> !Commits(s2, CreateCall(r2), lease, ops', reply))
  {
    hide Inv, Commits, Refuses, Run, State, DepsStored;
    var r, s1 := Normalized(first).value, State(s, ops);
    CreateStores(s, r, lease, ops, id);
    RunEvolves(s1, later);
    RunInv(s1, later);
    var s2, r2 := State(s1, later), Normalized(again).value;
    assert Existing(s2.tasks, r, id);
    KeyRefusal(s2, r, id, r2, lease, now, reply);
    if Commits(s2, CreateCall(r2), lease, ops', reply) {
      KeyHeld(s2, r, id, r2, lease, ops', reply);
    }
  }

  // An uncontended Claim

  predicate Ready(tasks: map<Id, Row>, id: Id, kind: string) {
    && id in tasks && tasks[id].status == Pending && KindMatches(tasks[id], kind)
    && NoParentUnfinished(tasks, tasks[id])
  }

  predicate Earlier(at: Time, a: Id, bt: Time, b: Id) { at < bt || (at == bt && Leq(a, b)) }

  /** ORDER BY created_at, id */
  predicate Older(tasks: map<Id, Row>, a: Id, b: Id)
    requires a in tasks && b in tasks
  {
    Earlier(tasks[a].createdAt, a, tasks[b].createdAt, b)
  }

  function LeaseEnd(row: Row): Time { if row.leaseUntil.Some? then row.leaseUntil.value else 0 }

  /** The oldest expired leases, up to the batch size; the statement runs from `start` to `now`. */
  ghost predicate FullRecovery(s: Db, expired: seq<Id>, start: Time, now: Time) {
    && Distinct(expired) && |expired| <= BATCH
    && (forall id :: id in expired ==> id in s.tasks && Expired(s.tasks[id], now))
    && (forall id :: id in s.tasks && Expired(s.tasks[id], start) && id !in expired ==>
          |expired| == BATCH && forall e :: e in expired ==> LeaseEnd(s.tasks[e]) <= LeaseEnd(s.tasks[id]))
  }

  /** As many blocked tasks as there are, up to the batch size. */
  ghost predicate FullPropagation(s: Db, blocked: seq<Id>) {
    && Distinct(blocked) && |blocked| <= BATCH
    && (forall id :: id in blocked ==> Blocked(s, id))
    && (|blocked| < BATCH ==> forall id :: Blocked(s, id) ==> id in blocked)
  }

  ghost predicate FullPick(s: Db, worker: string, kind: string, lease: Time, take: seq<Op>, reply: Reply) {
    && TakeShape(s.tasks, worker, kind, lease, take, reply)
    && (take == [] ==> forall id :: !Ready(s.tasks, id, kind))
    && (take != [] ==>
          && Ready(s.tasks, take[0].id, kind)
          && forall id :: Ready(s.tasks, id, kind) ==> Older(s.tasks, take[0].id, id))
  }

  /** What the three statements of a Claim did. */
  datatype Claiming = Claiming(expired: seq<Id>, start: Time, now: Time, blocked: seq<Id>, take: seq<Op>) {
    function Ops(): seq<Op> { ExpireOps(expired, now) + BlockOps(blocked) + take }

    ghost function AfterExpiry(s: Db): Db { State(s, ExpireOps(expired, now)) }

    ghost function AfterBlocks(s: Db): Db { State(AfterExpiry(s), BlockOps(blocked)) }
  }

  ghost predicate FullyRecovered(s: Db, c: Claiming) {
    Run(s, ExpireOps(c.expired, c.now)) && FullRecovery(s, c.expired, c.start, c.now)
  }

  ghost predicate FullyPropagated(s: Db, c: Claiming) {
    FullyRecovered(s, c) && Run(c.AfterExpiry(s), BlockOps(c.blocked)) && FullPropagation(c.AfterExpiry(s), c.blocked)
  }

  /** The three statements of Claim when no other transaction holds a row. */
  ghost predicate FullClaim(s: Db, worker: string, kind: string, lease: Time, c: Claiming, reply: Reply) {
    && FullyPropagated(s, c) && Run(c.AfterBlocks(s), c.take)
    && FullPick(c.AfterBlocks(s), worker, kind, lease, c.take, reply)
  }

  lemma ClaimStages(s: Db, c: Claiming)
    requires FullyPropagated(s, c)
    ensures State(s, ExpireOps(c.expired, c.now) + BlockOps(c.blocked)) == c.AfterBlocks(s)
    ensures Run(s, ExpireOps(c.expired, c.now) + BlockOps(c.blocked))
    ensures Run(s, c.Ops()) <==> Run(c.AfterBlocks(s), c.take)
    ensures State(s, c.Ops()) == State(c.AfterBlocks(s), c.take)
  {
    hide Run, State, FullRecovery, FullPropagation;
    var a, b := ExpireOps(c.expired, c.now), BlockOps(c.blocked);
    Append(s, a, b);
    Append(s, a + b, c.take);
  }

  /** A full Claim is a Claim transaction. */
  lemma FullClaimCommits(s: Db, worker: string, kind: string, lease: Time, c: Claiming, reply: Reply)
    requires FullClaim(s, worker, kind, lease, c, reply)
    ensures Run(s, c.Ops()) && State(s, c.Ops()) == State(c.AfterBlocks(s), c.take)
    ensures Commits(s, ClaimCall(worker, kind), lease, c.Ops(), reply)
  {
    hide Run, State, FullPick, TakeShape, FullyPropagated, ClaimShape;
    ClaimStages(s, c);
    BatchSizes(s, c);
    PickShape(c.AfterBlocks(s), worker, kind, lease, c.take, reply);
    ClaimKinds(s, ExpireOps(c.expired, c.now) + BlockOps(c.blocked), worker, kind, lease, c.take, reply);
    ShapeOf(s.tasks, worker, kind, lease, c, reply);
  }

  lemma BatchSizes(s: Db, c: Claiming)
    requires FullyPropagated(s, c)
    ensures |c.expired| <= BATCH && |c.blocked| <= BATCH
  {
    hide Run, State;
  }

  lemma ShapeOf(tasks: map<Id, Row>, worker: string, kind: string, lease: Time, c: Claiming, reply: Reply)
    requires |c.expired| <= BATCH && |c.blocked| <= BATCH
    requires TakeShape(tasks, worker, kind, lease, c.take, reply)
    ensures ClaimShape(tasks, worker, kind, lease, c.Ops(), reply)
  {
    hide TakeShape, ExpireOps, BlockOps;
  }

  lemma PickShape(s: Db, worker: string, kind: string, lease: Time, take: seq<Op>, reply: Reply)
    requires FullPick(s, worker, kind, lease, take, reply)
    ensures TakeShape(s.tasks, worker, kind, lease, take, reply)
  {
  }

  /** The kind of the taken row can be read before or after recovery. */
  lemma ClaimKinds(s: Db, ops: seq<Op>, worker: string, kind: string, lease: Time, take: seq<Op>, reply: Reply)
    requires Run(s, ops) && NoInsert(ops) && TakeShape(State(s, ops).tasks, worker, kind, lease, take, reply)
    ensures TakeShape(s.tasks, worker, kind, lease, take, reply)
  {
    hide Run, State;
    RunEvolves(s, ops);
    NoNewRows(s, ops);
  }

  lemma {:induction false} NoNewRows(s: Db, ops: seq<Op>)
    requires Run(s, ops) && NoInsert(ops)
    ensures State(s, ops).tasks.Keys == s.tasks.Keys
    decreases |ops|
  {
    if ops == [] {
    } else {
      NoNewRows(s, ops[..|ops| - 1]);
      assert Apply(State(s, ops[..|ops| - 1]), ops[|ops| - 1]).tasks.Keys
          == State(s, ops[..|ops| - 1]).tasks.Keys + {ops[|ops| - 1].id};
    }
  }

  // Failure propagation is finished after finitely many Claims

  function Waiting(): Row -> nat { (r: Row) => if r.status == Pending && r.attempts == 0 then 1 else 0 }

  /** Tasks that no one has claimed yet. */
  ghost function Unclaimed(s: Db): nat { Sum(s.tasks, Waiting()) }

  function Blocks(ops: seq<Op>): nat {
    if ops == [] then 0 else Blocks(ops[..|ops| - 1]) + (if ops[|ops| - 1].Block? then 1 else 0)
  }

  lemma StepUnclaimed(s: Db, op: Op)
    requires Tables(s) && Guard(s, op) && !op.Insert?
    ensures Unclaimed(Apply(s, op)) + (if op.Block? then 1 else 0) <= Unclaimed(s)
  {
    var row := s.tasks[op.id];
    if op.Block? { BlockedUnclaimed(s, op); }
    assert RowOk(row);
    SumUpdate(s.tasks, Waiting(), op.id, NextRow(row, op));
  }

  predicate NoInsert(ops: seq<Op>) { forall i :: 0 <= i < |ops| ==> !ops[i].Insert? }

  lemma {:induction false} RunUnclaimed(s: Db, ops: seq<Op>)
    requires Inv(s) && Run(s, ops) && NoInsert(ops)
    ensures Inv(State(s, ops)) && Unclaimed(State(s, ops)) + Blocks(ops) <= Unclaimed(s)
    decreases |ops|
  {
    if ops == [] {
    } else {
      var n := |ops| - 1;
      RunUnclaimed(s, ops[..n]);
      StepUnclaimed(State(s, ops[..n]), ops[n]);
      StepInv(State(s, ops[..n]), ops[n]);
    }
  }

  /** Expiring leases leaves a blocked task blocked. */
  lemma StillBlocked(s: Db, ops: seq<Op>, id: Id)
    requires Run(s, ops) && Blocked(s, id) && forall i :: 0 <= i < |ops| ==> ops[i].Expire?
    ensures Blocked(State(s, ops), id)
    decreases |ops|
  {
    if ops == [] {
    } else {
      var n := |ops| - 1;
      StillBlocked(s, ops[..n], id);
      var t := State(s, ops[..n]);
      var d :| d in t.tasks[id].request.deps && d in t.tasks && t.tasks[d].status == Failed;
      assert Apply(t, ops[n]).tasks[d].status == Failed;
    }
  }

  lemma {:induction false} BlocksInBatch(ids: seq<Id>)
    ensures Blocks(BlockOps(ids)) == |ids|
    decreases |ids|
  {
    if ids == [] {
    } else {
      var n := |ids| - 1;
      BlocksInBatch(ids[..n]);
      assert BlockOps(ids)[..n] == BlockOps(ids[..n]);
    }
  }

  /** An uncontended Claim that finds a pending task with a failed parent fails at least one. */
  lemma ClaimPropagates(s: Db, worker: string, kind: string, lease: Time, c: Claiming, reply: Reply)
    requires Inv(s) && FullClaim(s, worker, kind, lease, c, reply)
    ensures var t := State(s, c.Ops());
      && Inv(t) && Unclaimed(t) <= Unclaimed(s)
      && (!Settled(s) ==> c.blocked != [] && Unclaimed(t) < Unclaimed(s))
  {
    hide Inv, Settled, Unclaimed, FullPropagation, FullRecovery, Run, State;
    var a, b := ExpireOps(c.expired, c.now), BlockOps(c.blocked);
    FullClaimCommits(s, worker, kind, lease, c, reply);
    TakeNoInsert(c.AfterBlocks(s), worker, kind, lease, c.take, reply);
    ThreeStages(s, a, b, c.take);
    BlocksInBatch(c.blocked);
    if !Settled(s) { FullBlocks(s, a, c.blocked); }
  }

  lemma TakeNoInsert(s: Db, worker: string, kind: string, lease: Time, take: seq<Op>, reply: Reply)
    requires FullPick(s, worker, kind, lease, take, reply)
    ensures NoInsert(take)
  {
  }

  lemma ThreeStages(s: Db, a: seq<Op>, b: seq<Op>, c: seq<Op>)
    requires Inv(s) && Run(s, a + b + c) && NoInsert(a) && NoInsert(b) && NoInsert(c)
    ensures Run(s, a) && Inv(State(s, a + b + c))
    ensures Unclaimed(State(s, a + b + c)) + Blocks(b) <= Unclaimed(s)
  {
    Append(s, a + b, c);
    Append(s, a, b);
    RunUnclaimed(s, a);
    RunUnclaimed(State(s, a), b);
    RunUnclaimed(State(s, a + b), c);
  }

  lemma FullBlocks(s: Db, a: seq<Op>, blocked: seq<Id>)
    requires Inv(s) && Run(s, a) && (forall i :: 0 <= i < |a| ==> a[i].Expire?)
    requires FullPropagation(State(s, a), blocked) && !Settled(s)
    ensures blocked != []
  {
    SettledIff(s);
    var id :| Blocked(s, id);
    StillBlocked(s, a, id);
  }

  /** Some uncontended Claim leads from `s` to `t`. */
  ghost predicate ClaimStep(s: Db, t: Db) {
    exists worker, kind, lease, c, reply :: FullClaim(s, worker, kind, lease, c, reply) && t == State(s, c.Ops())
  }

  lemma ClaimStepPropagates(s: Db, t: Db)
    requires Inv(s) && ClaimStep(s, t)
    ensures Inv(t) && Unclaimed(t) + (if Settled(s) then 0 else 1) <= Unclaimed(s)
  {
    hide Inv, FullClaim, Settled, Unclaimed, State;
    var worker, kind, lease, c, reply :| FullClaim(s, worker, kind, lease, c, reply) && t == State(s, c.Ops());
    ClaimPropagates(s, worker, kind, lease, c, reply);
  }

  /** Any activity without new tasks, and then a Claim. */
  ghost predicate Round(from: Db, ops: seq<Op>, before: Db, after: Db) {
    NoInsert(ops) && Run(from, ops) && before == State(from, ops) && ClaimStep(before, after)
  }

  ghost predicate Rounds(start: Db, before: seq<Db>, after: seq<Db>, between: seq<seq<Op>>) {
    && |before| == |after| == |between|
    && (forall i :: 0 <= i < |before| ==> Round(Origin(start, after, i), between[i], before[i], after[i]))
  }

  /** Where round `i` begins. */
  function Origin(start: Db, after: seq<Db>, i: int): Db
    requires 0 <= i <= |after|
  {
    if i == 0 then start else after[i - 1]
  }

  lemma RoundUnclaimed(from: Db, ops: seq<Op>, before: Db, after: Db)
    requires Inv(from) && Round(from, ops, before, after) && !Settled(before)
    ensures Inv(after) && Unclaimed(after) < Unclaimed(from)
  {
    RunUnclaimed(from, ops);
    ClaimStepPropagates(before, after);
  }

  lemma {:induction false} RoundsUnclaimed(start: Db, before: seq<Db>, after: seq<Db>, between: seq<seq<Op>>, n: nat)
    requires Inv(start) && Rounds(start, before, after, between) && n <= |before|
    requires forall i :: 0 <= i < n ==> !Settled(before[i])
    ensures n > 0 ==> Inv(after[n - 1]) && Unclaimed(after[n - 1]) + n <= Unclaimed(start)
    decreases n
  {
    hide Inv, Settled, Unclaimed;
    if n == 0 {
    } else {
      RoundsUnclaimed(start, before, after, between, n - 1);
      RoundUnclaimed(Origin(start, after, n - 1), between[n - 1], before[n - 1], after[n - 1]);
    }
  }

  lemma UnclaimedBound(s: Db)
    ensures Unclaimed(s) <= |s.tasks|
  {
    SumBound(s.tasks, Waiting(), 1);
  }

  /**
   Among more Claims than there were tasks, with anything but new tasks in
   between, one starts from a state where every descendant of a failed task has
   failed.
   */
  lemma PropagationFinishes(start: Db, before: seq<Db>, after: seq<Db>, between: seq<seq<Op>>)
    requires Inv(start) && Rounds(start, before, after, between) && |before| > |start.tasks|
    ensures exists i :: 0 <= i < |before| && Settled(before[i])
  {
    if forall i :: 0 <= i < |before| ==> !Settled(before[i]) {
      RoundsUnclaimed(start, before, after, between, |before|);
      UnclaimedBound(start);
    }
  }
}
