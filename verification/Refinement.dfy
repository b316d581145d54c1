/**
 Every interleaving of SQL statements commits what the atomic transactions
 would, in commit order (internal/queue/store.go:169-325).

 `h` gives, for each open transaction, the row operations its statements have
 performed so far; the simulation relation says that these operations run on
 the committed tables and produce exactly the transaction's uncommitted writes.
 */
module Refinement {
  import opened Basics
  import opened Tasks
  import opened TaskLog
  import opened Transactions
  import opened Framing
  import opened Sql

  // What one transaction has put into the log

  function Own(log: seq<LogEntry>, tx: TxId): seq<Event> {
    if log == [] then []
    else
      var n := |log| - 1;
      Own(log[..n], tx) + (if log[n].owner == tx then [log[n].event] else [])
  }

  lemma {:induction false} WordAppend(a: seq<Event>, b: seq<Event>, id: Id)
    ensures Word(a + b, id) == Word(a, id) + Word(b, id)
    decreases |b|
  {
    if b == [] {
      assert a + b == a;
    } else {
      var n := |b| - 1;
      WordAppend(a, b[..n], id);
      assert (a + b)[..|a| + n] == a + b[..n];
    }
  }

  lemma EntriesSnoc(log: seq<LogEntry>, tx: TxId, es: seq<Event>)
    requires es != []
    ensures var more := log + Entries(tx, es);
      more[..|more| - 1] == log + Entries(tx, es[..|es| - 1]) && more[|more| - 1] == LogEntry(tx, es[|es| - 1])
  {
  }

  lemma {:induction false} OwnAppend(log: seq<LogEntry>, tx: TxId, es: seq<Event>, other: TxId)
    ensures Own(log + Entries(tx, es), other) == Own(log, other) + (if other == tx then es else [])
    decreases |es|
  {
    if es == [] {
      assert log + Entries(tx, es) == log;
    } else {
      var n := |es| - 1;
      OwnAppend(log, tx, es[..n], other);
      EntriesSnoc(log, tx, es);
      assert es == es[..n] + [es[n]];
    }
  }

  lemma {:induction false} VisibleAppend(log: seq<LogEntry>, tx: TxId, es: seq<Event>, owners: set<TxId>, id: Id)
    ensures Visible(log + Entries(tx, es), owners, id)
         == Visible(log, owners, id) + (if tx in owners then Word(es, id) else [])
    decreases |es|
  {
    if es == [] {
      assert log + Entries(tx, es) == log;
    } else {
      var n := |es| - 1;
      VisibleAppend(log, tx, es[..n], owners, id);
      EntriesSnoc(log, tx, es);
    }
  }

  /** A transaction that wrote nothing about a task does not show in that task's events. */
  lemma {:induction false} VisibleWithout(log: seq<LogEntry>, owners: set<TxId>, tx: TxId, id: Id)
    requires Word(Own(log, tx), id) == []
    ensures Visible(log, owners + {tx}, id) == Visible(log, owners, id)
    decreases |log|
  {
    if log == [] {
    } else {
      var n := |log| - 1;
      var e := log[n];
      if e.owner == tx {
        WordSnoc(Own(log[..n], tx), e.event, id);
      } else {
        assert Own(log, tx) == Own(log[..n], tx);
      }
      VisibleWithout(log[..n], owners, tx, id);
    }
  }

  lemma {:induction false} NoEntries(log: seq<LogEntry>, tx: TxId)
    requires forall e :: e in log ==> e.owner != tx
    ensures Own(log, tx) == []
  {
    if log == [] {
    } else {
      NoEntries(log[..|log| - 1], tx);
    }
  }

  // The simulation relation for one transaction

  ghost predicate Effect(rows: map<Id, Row>, t: Txn, a: Db, ops: seq<Op>) {
    Run(a, ops) && State(a, ops).tasks == Sees(rows, t) && t.writes.Keys == Ids(ops)
  }

  predicate Holding(locks: map<Id, TxId>, keys: map<string, TxId>, tx: TxId, ops: seq<Op>) {
    && (forall id :: id in Ids(ops) ==> id in locks && locks[id] == tx)
    && (forall k :: k in NewKeys(ops) ==> k in keys && keys[k] == tx)
  }

  /** Which operations are behind the transaction at each statement. */
  ghost predicate Position(locks: map<Id, TxId>, tx: TxId, t: Txn, a: Db, ops: seq<Op>, lease: Time) {
    match t.pc
    case CheckDep(i) =>
      && t.call.CreateCall? && ops == [] && i <= |t.call.request.deps|
      && forall j :: 0 <= j < i ==> t.call.request.deps[j] in a.tasks
    case ReadFingerprint => t.call.CreateCall? && ops == [] && DepsStored(a.tasks, t.call.request)
    case ReadRow =>
      && t.call.CreateCall? && ops == [] && DepsStored(a.tasks, t.call.request)
      && exists id :: Existing(a.tasks, t.call.request, id)
    case Recover => t.call.ClaimCall? && ops == []
    case Propagate => t.call.ClaimCall? && exists ids, now :: |ids| <= BATCH && ops == ExpireOps(ids, now)
    case Choose => t.call.ClaimCall? && RecoveredBy(ops)
    case LockRow => t.call.LeaseCall? && ops == []
    case UpdateRow =>
      t.call.LeaseCall? && ops == [] && t.call.id in locks && locks[t.call.id] == tx && t.call.id in a.tasks
    case ReadyToCommit(reply) => Commits(a, t.call, lease, ops, reply)
    case _ => Commits(a, t.call, lease, ops, ReplyAfterLog(t))
  }

  ghost predicate RecoveredBy(ops: seq<Op>) {
    exists ids, now, bs :: |ids| <= BATCH && |bs| <= BATCH && ops == ExpireOps(ids, now) + BlockOps(bs)
  }

  ghost predicate ScanOk(rows: map<Id, Row>, clock: Time, locks: map<Id, TxId>, tx: TxId, t: Txn) {
    t.scan.Scanning? ==>
      && Selecting(t) && DepsClosed(t.scan.snapshot) && Evolves(t.scan.snapshot, Sees(rows, t))
      && Distinct(t.scan.locked + t.scan.queue) && |t.scan.locked| <= Limit(t.pc)
      && forall id :: id in t.scan.locked ==> LockedOk(rows, clock, locks, tx, t, id)
  }

  ghost predicate LockedOk(rows: map<Id, Row>, clock: Time, locks: map<Id, TxId>, tx: TxId, t: Txn, id: Id)
    requires t.scan.Scanning? && t.call.ClaimCall?
  {
    && id in locks && locks[id] == tx && id in t.scan.snapshot && id in Sees(rows, t)
    && Qualifies(t.pc, t.call.kind, t.scan.snapshot, Sees(rows, t)[id], clock)
  }

  /**
   The clock reading of an operation was taken while its row was locked: since
   `since`, and not after `clock`. A lease it grants starts by then too.
   */
  predicate Timed(op: Op, since: Time, clock: Time, lease: Time) {
    && (!op.Block? ==> since <= op.now <= clock)
    && (op.Take? || op.Beat? ==> op.until <= clock + lease)
  }

  predicate InWindow(held: map<Id, Time>, clock: Time, ops: seq<Op>, lease: Time) {
    forall i :: 0 <= i < |ops| ==> ops[i].id in held && Timed(ops[i], held[ops[i].id], clock, lease)
  }

  /** The transaction knows when it took each of its row locks. */
  predicate HeldOk(locks: map<Id, TxId>, clock: Time, tx: TxId, t: Txn) {
    && (forall id :: id in t.held ==> id in locks && locks[id] == tx && t.begun <= t.held[id] <= clock)
    && (forall id :: id in locks && locks[id] == tx ==> id in t.held)
    && t.begun <= clock
  }

  ghost predicate TxOk(f: Server, tx: TxId, a: Db, ops: seq<Op>, lease: Time)
    requires tx in f.live
  {
    var t := f.live[tx];
    && WellCalled(t.call)
    && Effect(f.rows, t, a, ops)
    && Holding(f.locks, f.keys, tx, ops)
    && Position(f.locks, tx, t, a, ops, lease)
    && ScanOk(f.rows, f.clock, f.locks, tx, t)
    && Own(f.log, tx) + PendingEvent(t) == Emission(a, ops)
    && Nonces(ops) <= f.nonces
    && HeldOk(f.locks, f.clock, tx, t) && InWindow(t.held, f.clock, ops, lease)
  }

  // The simulation relation

  ghost predicate Bookkeeping(f: Server, a: Db, h: map<TxId, seq<Op>>) {
    && a.tasks == f.rows && a.issued <= f.nonces
    && h.Keys == f.live.Keys && f.live.Keys !! f.ended && f.committed <= f.ended
    && (forall e :: e in f.log ==> e.owner in f.live || e.owner in f.ended)
    && (forall id :: id in f.locks ==> f.locks[id] in f.live && id in f.nonces)
    && (forall k :: k in f.keys ==> f.keys[k] in f.live)
    && (forall x, y :: x in h && y in h && x != y ==> Nonces(h[x]) !! Nonces(h[y]))
  }

  /** For each task, the visible events are those of the atomic run, and an open transaction's come last. */
  ghost predicate LogOk(f: Server, a: Db) {
    && (forall id :: Visible(f.log, f.committed, id) == Word(a.events, id))
    && (forall tx, id :: tx in f.live ==>
          Visible(f.log, f.committed + {tx}, id) == Word(a.events, id) + Word(Own(f.log, tx), id))
  }

  ghost predicate Simulates(f: Server, a: Db, h: map<TxId, seq<Op>>, lease: Time) {
    && Inv(a) && Bookkeeping(f, a, h) && LogOk(f, a)
    && forall tx :: tx in f.live ==> TxOk(f, tx, a, h[tx], lease)
  }

  // Statements of one transaction leave the others as they were

  ghost predicate Undisturbed(f: Server, g: Server, tx: TxId) {
    && tx in f.live && tx in g.live && g.live[tx] == f.live[tx]
    && g.rows == f.rows && f.clock <= g.clock && f.nonces <= g.nonces
    && (forall id :: (id in f.locks && f.locks[id] == tx) <==> (id in g.locks && g.locks[id] == tx))
    && (forall k :: k in f.keys && f.keys[k] == tx ==> k in g.keys && g.keys[k] == tx)
    && Own(g.log, tx) == Own(f.log, tx)
  }

  lemma UndisturbedTx(f: Server, g: Server, tx: TxId, a: Db, ops: seq<Op>, lease: Time)
    requires Undisturbed(f, g, tx) && TxOk(f, tx, a, ops, lease)
    ensures TxOk(g, tx, a, ops, lease)
  {
    hide Run, State, Ids, NewKeys, Evolves, DepsClosed, Commits, Emission, Own, RecoveredBy;
    var t := f.live[tx];
    if t.scan.Scanning? {
      forall id | id in t.scan.locked ensures LockedOk(g.rows, g.clock, g.locks, tx, t, id) {
        assert LockedOk(f.rows, f.clock, f.locks, tx, t, id);
      }
    }
  }

  /** A statement of `tx` that locks free rows, writes under `tx` and inserts events `es`. */
  predicate Local(f: Server, g: Server, tx: TxId, es: seq<Event>) {
    && tx in f.live && tx in g.live && g.live == f.live[tx := g.live[tx]]
    && g.rows == f.rows && f.clock <= g.clock && f.nonces <= g.nonces
    && g.committed == f.committed && g.ended == f.ended && g.log == f.log + Entries(tx, es)
    && (forall id :: id in f.locks ==> id in g.locks && g.locks[id] == f.locks[id])
    && (forall id :: id in g.locks && id !in f.locks ==> g.locks[id] == tx && id in g.nonces)
    && (forall k :: k in f.keys ==> k in g.keys && g.keys[k] == f.keys[k])
    && (forall k :: k in g.keys && k !in f.keys ==> g.keys[k] == tx)
  }

  lemma LocalLog(f: Server, g: Server, a: Db, tx: TxId, es: seq<Event>)
    requires Local(f, g, tx, es) && LogOk(f, a) && tx !in f.committed
    ensures LogOk(g, a)
  {
    hide Visible, Own, Word, Entries;
    forall id ensures Visible(g.log, g.committed, id) == Word(a.events, id) {
      VisibleAppend(f.log, tx, es, f.committed, id);
    }
    forall x, id | x in g.live
      ensures Visible(g.log, g.committed + {x}, id) == Word(a.events, id) + Word(Own(g.log, x), id)
    {
      VisibleAppend(f.log, tx, es, f.committed + {x}, id);
      OwnAppend(f.log, tx, es, x);
      WordAppend(Own(f.log, x), es, id);
      var w, o, n := Word(a.events, id), Word(Own(f.log, x), id), Word(es, id);
      assert Visible(f.log, f.committed + {x}, id) == w + o;
      if x == tx {
        assert (w + o) + n == w + (o + n);
      } else {
        assert (w + o) + [] == w + o;
        assert Own(f.log, x) + [] == Own(f.log, x);
      }
    }
  }

  lemma LocalBooks(f: Server, g: Server, a: Db, h: map<TxId, seq<Op>>, tx: TxId, es: seq<Event>, ops: seq<Op>)
    requires Local(f, g, tx, es) && Bookkeeping(f, a, h)
    requires forall y :: y in h && y != tx ==> Nonces(ops) !! Nonces(h[y])
    ensures Bookkeeping(g, a, h[tx := ops])
  {
    hide Nonces;
    forall e | e in g.log ensures e.owner in g.live || e.owner in g.ended {
      if e !in f.log { assert e in Entries(tx, es); }
    }
  }

  /** New random values are new to everyone. */
  lemma FreshNonces(f: Server, a: Db, h: map<TxId, seq<Op>>, lease: Time, tx: TxId, ops: seq<Op>, new_: set<string>)
    requires Simulates(f, a, h, lease) && tx in f.live
    requires Nonces(ops) <= Nonces(h[tx]) + new_ && new_ !! f.nonces
    ensures forall y :: y in h && y != tx ==> Nonces(ops) !! Nonces(h[y])
  {
    hide Inv, LogOk, Effect, Holding, Position, ScanOk, Nonces;
    forall y | y in h && y != tx ensures Nonces(ops) !! Nonces(h[y]) {
      assert TxOk(f, y, a, h[y], lease);
    }
  }

  lemma LocalUndisturbed(f: Server, g: Server, tx: TxId, es: seq<Event>, x: TxId)
    requires Local(f, g, tx, es) && x in f.live && x != tx
    ensures Undisturbed(f, g, x)
  {
    OwnAppend(f.log, tx, es, x);
  }

  lemma OpenNotEnded(f: Server, a: Db, h: map<TxId, seq<Op>>, tx: TxId)
    requires Bookkeeping(f, a, h) && tx in f.live
    ensures tx !in f.committed && tx !in f.ended && tx in h
  {
  }

  /** The pieces of a statement put together. */
  lemma LocalStep(f: Server, g: Server, a: Db, h: map<TxId, seq<Op>>, lease: Time,
                  tx: TxId, es: seq<Event>, ops: seq<Op>, new_: set<string>)
    requires Simulates(f, a, h, lease) && Local(f, g, tx, es) && tx in h
    requires Nonces(ops) <= Nonces(h[tx]) + new_ && new_ !! f.nonces
    requires TxOk(g, tx, a, ops, lease)
    ensures Simulates(g, a, h[tx := ops], lease)
  {
    FreshNonces(f, a, h, lease, tx, ops, new_);
    hide Inv, TxOk, Nonces, LogOk, Bookkeeping, Undisturbed;
    OpenNotEnded(f, a, h, tx);
    LocalBooks(f, g, a, h, tx, es, ops);
    LocalLog(f, g, a, tx, es);
    forall x | x in g.live ensures TxOk(g, x, a, h[tx := ops][x], lease) {
      if x != tx {
        LocalUndisturbed(f, g, tx, es, x);
        UndisturbedTx(f, g, x, a, h[x], lease);
      }
    }
  }
}
