/**
 The event table as readers of an interleaved server see it: committed entries
 in the order of their ids, which are handed out before commit. Across tasks this
 order can differ from the atomic one, but a claim still comes after the
 completion of each parent, and the counts of Snapshot still balance with the
 whole table (internal/queue/store.go:214-268, 345-382).
 */
module VisibleLog {
  import opened Tasks
  import opened TaskLog
  import opened Transactions
  import opened Batches
  import opened Framing
  import opened Sql
  import opened Refinement
  import opened Simulation
  import opened Serializability

  // Parents first

  predicate OpenOrDone(f: Server, tx: TxId) { tx in f.live || tx in f.committed }

  /** A `claimed` entry that is visible or may become so. */
  predicate ClaimEntry(f: Server, j: int) {
    0 <= j < |f.log| && OpenOrDone(f, f.log[j].owner) && f.log[j].event.action == Claimed
  }

  /** A visible `completed` entry. */
  predicate CompletedEntry(f: Server, i: int, d: Id) {
    && 0 <= i < |f.log| && f.log[i].owner in f.committed
    && f.log[i].event.task == d && f.log[i].event.action == ReportedCompleted
  }

  ghost predicate CompletedBy(f: Server, d: Id, j: int) { exists i :: i < j && CompletedEntry(f, i, d) }

  predicate ParentOf(f: Server, d: Id, id: Id) { id in f.rows && d in f.rows[id].request.deps }

  ghost predicate ParentsVisibleFirst(f: Server) {
    && (forall j :: ClaimEntry(f, j) ==> f.log[j].event.task in f.rows)
    && (forall j, d :: ClaimEntry(f, j) && ParentOf(f, d, f.log[j].event.task) ==> CompletedBy(f, d, j))
  }

  /** A step that inserts no `claimed` event, reopens no transaction and keeps the stored requests. */
  predicate Harmless(f: Server, g: Server, tx: TxId, es: seq<Event>) {
    && g.log == f.log + Entries(tx, es) && (forall i :: 0 <= i < |es| ==> es[i].action != Claimed)
    && f.committed <= g.committed
    && (forall j :: 0 <= j < |f.log| && OpenOrDone(g, f.log[j].owner) ==> OpenOrDone(f, f.log[j].owner))
    && (forall id :: id in f.rows ==> id in g.rows && g.rows[id].request == f.rows[id].request)
  }

  lemma CompletedStays(f: Server, g: Server, d: Id, j: int)
    requires CompletedBy(f, d, j) && f.committed <= g.committed && f.log <= g.log
    ensures CompletedBy(g, d, j)
  {
    var i :| i < j && CompletedEntry(f, i, d);
    assert CompletedEntry(g, i, d);
  }

  lemma HarmlessKeeps(f: Server, g: Server, tx: TxId, es: seq<Event>)
    requires ParentsVisibleFirst(f) && Harmless(f, g, tx, es)
    ensures ParentsVisibleFirst(g)
  {
    hide CompletedBy;
    forall j | ClaimEntry(g, j) ensures ClaimEntry(f, j) && g.log[j] == f.log[j] {}
    forall j, d | ClaimEntry(g, j) && ParentOf(g, d, g.log[j].event.task) ensures CompletedBy(g, d, j) {
      assert ClaimEntry(f, j) && ParentOf(f, d, f.log[j].event.task);
      CompletedStays(f, g, d, j);
    }
  }

  /** Recovery and propagation complete nothing. */
  lemma {:induction false} CompletedBefore(s: Db, ops: seq<Op>, d: Id)
    requires Run(s, ops) && (forall i :: 0 <= i < |ops| ==> ops[i].Expire? || ops[i].Block?)
    requires d in State(s, ops).tasks && State(s, ops).tasks[d].status == Completed
    ensures d in s.tasks && s.tasks[d].status == Completed
    decreases |ops|
  {
    if ops == [] {
    } else {
      CompletedBefore(s, ops[..|ops| - 1], d);
    }
  }

  /** A Claim that was granted a task had that task's parents completed in the committed tables. */
  lemma GrantedParents(a: Db, call: Call, lease: Time, ops: seq<Op>, id: Id, token: string, d: Id)
    requires Inv(a) && Commits(a, call, lease, ops, Granted(id, token)) && call.ClaimCall?
    ensures id in a.tasks
    ensures d in a.tasks[id].request.deps ==> d in a.tasks && a.tasks[d].status == Completed
  {
    hide Run, State, Inv, TakeShape;
    var expired: seq<Id>, now: Time, blocked: seq<Id>, take: seq<Op> :|
      && ops == ExpireOps(expired, now) + BlockOps(blocked) + take
      && TakeShape(a.tasks, call.worker, call.kind, lease, take, Granted(id, token));
    var op := GrantedTake(a.tasks, call, lease, take, id, token);
    if d in a.tasks[id].request.deps {
      TakenParents(a, ExpireOps(expired, now) + BlockOps(blocked), op, d);
    }
  }

  lemma GrantedTake(tasks: map<Id, Row>, call: Call, lease: Time, take: seq<Op>, id: Id, token: string) returns (op: Op)
    requires call.ClaimCall? && TakeShape(tasks, call.worker, call.kind, lease, take, Granted(id, token))
    ensures take == [op] && op.Take? && op.id == id && id in tasks
  {
    op := take[0];
  }

  lemma TakenParents(a: Db, first: seq<Op>, op: Op, d: Id)
    requires Inv(a) && op.Take? && op.id in a.tasks && d in a.tasks[op.id].request.deps && Run(a, first + [op])
    requires forall i :: 0 <= i < |first| ==> first[i].Expire? || first[i].Block?
    ensures d in a.tasks && a.tasks[d].status == Completed
  {
    hide Run, State, Inv;
    Snoc(a, first, op);
    RunEvolves(a, first);
    ParentStored(a, op.id, d);
    CompletedBefore(a, first, d);
  }

  lemma ParentStored(a: Db, id: Id, d: Id)
    requires Inv(a) && id in a.tasks && d in a.tasks[id].request.deps
    ensures d in a.tasks
  {
    hide Logged, Conserved;
    assert ParentsOk(a.tasks, a.tasks[id]);
  }

  lemma {:induction false} VisibleMember(log: seq<LogEntry>, owners: set<TxId>, id: Id, k: nat) returns (i: nat)
    requires k < |Visible(log, owners, id)|
    ensures i < |log| && log[i].owner in owners && log[i].event == Visible(log, owners, id)[k]
    ensures log[i].event.task == id
    decreases |log|
  {
    var n := |log| - 1;
    if k < |Visible(log[..n], owners, id)| {
      i := VisibleMember(log[..n], owners, id, k);
    } else {
      i := n;
    }
  }

  /** The completion of a committed task is visible. */
  lemma CompletionVisible(f: Server, a: Db, d: Id)
    requires Inv(a) && Visible(f.log, f.committed, d) == Word(a.events, d)
    requires d in a.tasks && a.tasks[d].status == Completed
    ensures CompletedBy(f, d, |f.log|)
  {
    hide Visible, Word, Conserved, Tables, Replay;
    var word := Word(a.events, d);
    assert Spells(Actions(word), a.tasks[d]);
    var k := |word| - 1;
    assert Actions(word)[k] == ReportedCompleted;
    var i := VisibleMember(f.log, f.committed, d, k);
    assert CompletedEntry(f, i, d);
  }

  lemma ClaimLogged(f: Server, a: Db, h: map<TxId, seq<Op>>, lease: Time, tx: TxId)
    requires Simulates(f, a, h, lease) && tx in f.live && f.live[tx].pc.LogClaimed? && f.live[tx].call.ClaimCall?
    requires ParentsVisibleFirst(f)
    ensures ParentsVisibleFirst(EventLogged(f, tx, f.live[tx]))
  {
    hide Simulates, Inv, TxOk, ScanOk, Commits, CompletedBy, ReplyAfterLog;
    var t, g, n := f.live[tx], EventLogged(f, tx, f.live[tx]), |f.log|;
    var id := t.pc.id;
    Turn(f, a, h, lease, tx);
    Observed(f, a, h, lease);
    ReplyIs(t);
    assert g.log == f.log + [LogEntry(tx, Event(id, Claimed, t.call.worker))];
    GrantedParents(a, t.call, lease, h[tx], id, t.pc.token, id);
    forall j, d | ClaimEntry(g, j) && ParentOf(g, d, g.log[j].event.task) ensures CompletedBy(g, d, j) {
      if j < n {
        assert ClaimEntry(f, j) && ParentOf(f, d, f.log[j].event.task);
      } else {
        GrantedParents(a, t.call, lease, h[tx], id, t.pc.token, d);
        CompletionVisible(f, a, d);
      }
      CompletedStays(f, g, d, j);
    }
    forall j | ClaimEntry(g, j) ensures g.log[j].event.task in g.rows {
      if j < n { assert ClaimEntry(f, j); }
    }
  }

  lemma ReplyIs(t: Txn)
    requires t.pc.LogClaimed?
    ensures ReplyAfterLog(t) == Granted(t.pc.id, t.pc.token)
  {
  }

  lemma NoClaimLogged(t: Txn)
    requires Logging(t) && !(t.pc.LogClaimed? && t.call.ClaimCall?)
    ensures forall i :: 0 <= i < |PendingEvent(t)| ==> PendingEvent(t)[i].action != Claimed
  {
  }

  lemma CommitHarmless(f: Server, a: Db, h: map<TxId, seq<Op>>, lease: Time, tx: TxId)
    requires Simulates(f, a, h, lease) && tx in f.live
    ensures Harmless(f, Committed(f, tx, f.live[tx]), tx, [])
  {
    hide Simulates, Inv, Run, State, Ids;
    CommitRows(f, a, h, lease, tx);
    assert f.log + Entries(tx, []) == f.log;
  }

  lemma BeginHarmless(f: Server, a: Db, h: map<TxId, seq<Op>>, tx: TxId, call: Call)
    requires Bookkeeping(f, a, h) && tx !in f.live && tx !in f.ended
    ensures Harmless(f, Begun(f, tx, call), tx, [])
  {
    assert f.log + Entries(tx, []) == f.log;
    forall j | 0 <= j < |f.log| ensures f.log[j].owner != tx { assert f.log[j] in f.log; }
  }

  lemma ReleaseHarmless(f: Server, tx: TxId)
    ensures Harmless(f, Release(f, tx), tx, [])
  {
    assert f.log + Entries(tx, []) == f.log;
  }

  lemma Books(f: Server, a: Db, h: map<TxId, seq<Op>>, lease: Time)
    requires Simulates(f, a, h, lease)
    ensures Bookkeeping(f, a, h)
  {
    hide Inv, LogOk, TxOk, Bookkeeping;
  }

  /** A statement that keeps rows and log and stays in its transaction. */
  lemma QuietHarmless(f: Server, g: Server, tx: TxId)
    requires g.log == f.log && g.rows == f.rows && g.committed == f.committed && g.live.Keys == f.live.Keys
    ensures Harmless(f, g, tx, [])
  {
    assert f.log + Entries(tx, []) == f.log;
  }

  lemma StatementHarmless(f: Server, step: Step, lease: Time) returns (es: seq<Event>)
    requires !step.Tick? && !step.Begin? && !step.Commit? && step.tx in f.live && TxEnabled(f, step, f.live[step.tx])
    requires !(step.LogStep? && f.live[step.tx].pc.LogClaimed? && f.live[step.tx].call.ClaimCall?)
    ensures Harmless(f, DoTx(f, step, f.live[step.tx], lease), step.tx, es)
  {
    var tx, t := step.tx, f.live[step.tx];
    es := [];
    if step.LogStep? {
      es := PendingEvent(t);
      NoClaimLogged(t);
      AppendHarmless(f, EventLogged(f, tx, t), tx, es);
    } else if step.CloseRecover? {
      es := RecoveryEvents(Sees(f.rows, t), t.scan.locked);
      AppendHarmless(f, RecoverClosed(f, tx, t), tx, es);
    } else if step.ClosePropagate? {
      es := PropagationEvents(t.scan.locked);
      AppendHarmless(f, PropagateClosed(f, tx, t), tx, es);
    } else if step.Refuse? || step.Rollback? {
      ReleaseHarmless(f, tx);
    } else {
      QuietStatement(f, step, lease);
      QuietHarmless(f, DoTx(f, step, t, lease), tx);
    }
  }

  lemma QuietStatement(f: Server, step: Step, lease: Time)
    requires !step.Tick? && !step.Begin? && !step.Commit? && step.tx in f.live && TxEnabled(f, step, f.live[step.tx])
    requires !step.LogStep? && !step.CloseRecover? && !step.ClosePropagate? && !step.Refuse? && !step.Rollback?
    ensures var g := DoTx(f, step, f.live[step.tx], lease);
      g.log == f.log && g.rows == f.rows && g.committed == f.committed && g.live.Keys == f.live.Keys
  {
    hide Qualifies, Visits, Lockable, Leased, Finished, KeyTaken, Owned, Existing;
  }

  lemma AppendHarmless(f: Server, g: Server, tx: TxId, es: seq<Event>)
    requires g.log == f.log + Entries(tx, es) && g.rows == f.rows && g.committed == f.committed
    requires g.live.Keys == f.live.Keys
    requires forall i :: 0 <= i < |es| ==> es[i].action != Claimed
    ensures Harmless(f, g, tx, es)
  {
  }

  lemma ParentsStep(f: Server, step: Step, a: Db, h: map<TxId, seq<Op>>, lease: Time)
    requires Simulates(f, a, h, lease) && Enabled(f, step) && ParentsVisibleFirst(f)
    ensures ParentsVisibleFirst(Do(f, step, lease))
  {
    hide Simulates, Harmless, ParentsVisibleFirst, DoTx, Committed;
    if step.Tick? {
      QuietHarmless(f, f.(clock := step.now), 0);
      HarmlessKeeps(f, f.(clock := step.now), 0, []);
    } else if step.Begin? {
      Books(f, a, h, lease);
      BeginHarmless(f, a, h, step.tx, step.call);
      HarmlessKeeps(f, Begun(f, step.tx, step.call), step.tx, []);
    } else {
      ParentsStatement(f, step, a, h, lease);
    }
  }

  lemma ParentsStatement(f: Server, step: Step, a: Db, h: map<TxId, seq<Op>>, lease: Time)
    requires !step.Tick? && !step.Begin? && step.tx in f.live && TxEnabled(f, step, f.live[step.tx])
    requires Simulates(f, a, h, lease) && ParentsVisibleFirst(f)
    ensures ParentsVisibleFirst(DoTx(f, step, f.live[step.tx], lease))
  {
    hide Simulates, Harmless, ParentsVisibleFirst;
    var tx := step.tx;
    if step.Commit? {
      CommitHarmless(f, a, h, lease, tx);
      HarmlessKeeps(f, Committed(f, tx, f.live[tx]), tx, []);
    } else if step.LogStep? && f.live[tx].pc.LogClaimed? && f.live[tx].call.ClaimCall? {
      ClaimLogged(f, a, h, lease, tx);
    } else {
      var es := StatementHarmless(f, step, lease);
      HarmlessKeeps(f, DoTx(f, step, f.live[tx], lease), tx, es);
    }
  }

  lemma {:induction false} ParentsInterleaved(steps: seq<Step>, lease: Time)
    requires Legal(steps, lease)
    ensures ParentsVisibleFirst(Exec(steps, lease))
    decreases |steps|
  {
    hide Simulates, ParentsVisibleFirst, Enabled, Do, Serial;
    if steps == [] {
      ParentsInit();
    } else {
      var n := |steps| - 1;
      ParentsInterleaved(steps[..n], lease);
      var history, h := Simulated(steps[..n], lease);
      ParentsStep(Exec(steps[..n], lease), steps[n], After(EMPTY, history), h, lease);
    }
  }

  lemma ParentsInit()
    ensures ParentsVisibleFirst(INIT)
  {
  }

  /** In every interleaving a visible `claimed` entry comes after a visible `completed` entry of each parent. */
  lemma ClaimsAfterParents(steps: seq<Step>, lease: Time, j: nat, d: Id) returns (i: nat)
    requires Legal(steps, lease)
    requires var f := Exec(steps, lease);
      && j < |f.log| && f.log[j].owner in f.committed && f.log[j].event.action == Claimed
      && f.log[j].event.task in f.rows && d in f.rows[f.log[j].event.task].request.deps
    ensures var f := Exec(steps, lease);
      && i < j && f.log[i].owner in f.committed
      && f.log[i].event.task == d && f.log[i].event.action == ReportedCompleted
  {
    hide Exec, Legal;
    ParentsInterleaved(steps, lease);
    var f := Exec(steps, lease);
    assert ClaimEntry(f, j) && ParentOf(f, d, f.log[j].event.task);
    i :| i < j && CompletedEntry(f, i, d);
  }

  // Counts

  /** All committed entries, in the order of their ids. */
  function Shown(log: seq<LogEntry>, owners: set<TxId>): seq<Event> {
    if log == [] then []
    else
      var n := |log| - 1;
      Shown(log[..n], owners) + (if log[n].owner in owners then [log[n].event] else [])
  }

  lemma {:induction false} ShownCount(log: seq<LogEntry>, owners: set<TxId>, e: Event)
    ensures multiset(Shown(log, owners))[e] == multiset(Visible(log, owners, e.task))[e]
    decreases |log|
  {
    if log == [] {
    } else {
      ShownCount(log[..|log| - 1], owners, e);
    }
  }

  lemma {:induction false} WordCount(events: seq<Event>, e: Event)
    ensures multiset(events)[e] == multiset(Word(events, e.task))[e]
    decreases |events|
  {
    if events == [] {
    } else {
      var n := |events| - 1;
      WordCount(events[..n], e);
      assert events == events[..n] + [events[n]];
    }
  }

  /** Tables that show every task the same events hold the same events. */
  lemma ShownSame(log: seq<LogEntry>, owners: set<TxId>, events: seq<Event>)
    requires forall id :: Visible(log, owners, id) == Word(events, id)
    ensures multiset(Shown(log, owners)) == multiset(events)
  {
    forall e ensures multiset(Shown(log, owners))[e] == multiset(events)[e] {
      ShownCount(log, owners, e);
      WordCount(events, e);
    }
  }

  lemma {:induction false} OccurrencesAppend(a: seq<Event>, b: seq<Event>, x: Action)
    ensures Occurrences(a + b, x) == Occurrences(a, x) + Occurrences(b, x)
    decreases |b|
  {
    if b == [] {
      assert a + b == a;
    } else {
      var n := |b| - 1;
      OccurrencesAppend(a, b[..n], x);
      assert (a + b)[..|a| + n] == a + b[..n];
    }
  }

  function Without(s: seq<Event>, k: nat): seq<Event>
    requires k < |s|
  {
    s[..k] + s[k + 1..]
  }

  lemma WithoutCount(s: seq<Event>, k: nat, x: Action)
    requires k < |s|
    ensures multiset(Without(s, k)) == multiset(s) - multiset{s[k]}
    ensures Occurrences(s, x) == Occurrences(Without(s, k), x) + Occurrences([s[k]], x)
  {
    hide Occurrences;
    assert s == s[..k] + ([s[k]] + s[k + 1..]);
    OccurrencesAppend(s[..k], [s[k]] + s[k + 1..], x);
    OccurrencesAppend([s[k]], s[k + 1..], x);
    OccurrencesAppend(s[..k], s[k + 1..], x);
  }

  /** Counting an action does not depend on the order of the events. */
  lemma {:induction false} OccurrencesSame(s: seq<Event>, t: seq<Event>, x: Action)
    requires multiset(s) == multiset(t)
    ensures Occurrences(s, x) == Occurrences(t, x)
    decreases |s|
  {
    hide Occurrences, Without;
    if s == [] {
      assert |multiset(t)| == 0;
      assert t == s;
    } else {
      assert s[0] in multiset(t);
      var k :| 0 <= k < |t| && t[k] == s[0];
      WithoutCount(s, 0, x);
      WithoutCount(t, k, x);
      assert |Without(s, 0)| == |multiset(Without(s, 0))| < |multiset(s)|;
      OccurrencesSame(Without(s, 0), Without(t, k), x);
    }
  }

  lemma ConservedSame(s: Db, t: Db)
    requires Conserved(s) && t.tasks == s.tasks && forall x :: Occurrences(t.events, x) == Occurrences(s.events, x)
    ensures Conserved(t)
  {
    hide Occurrences, Count;
  }

  /**
   In every interleaving the status counts balance with the visible event table, and its entries belong
   to stored tasks.
   */
  lemma CountsInterleaved(steps: seq<Step>, lease: Time)
    requires Legal(steps, lease)
    ensures var f := Exec(steps, lease);
      && Conserved(Db(f.rows, Shown(f.log, f.committed), f.nonces))
      && forall e :: e in Shown(f.log, f.committed) ==> e.task in f.rows
  {
    hide Exec, Legal, Simulates, Serial, Shown, Visible, Word, Conserved, Tables, Occurrences, Spells, Replay;
    var history, h := Simulated(steps, lease);
    var f, a := Exec(steps, lease), After(EMPTY, history);
    Observed(f, a, h, lease);
    var shown := Shown(f.log, f.committed);
    ShownSame(f.log, f.committed, a.events);
    forall x ensures Occurrences(shown, x) == Occurrences(a.events, x) { OccurrencesSame(shown, a.events, x); }
    ConservedSame(a, Db(f.rows, shown, f.nonces));
    forall e | e in shown ensures e.task in f.rows {
      assert e in multiset(shown);
      assert e in multiset(a.events);
    }
  }
}
