/**
 What holds in every reachable state of the two tables: the row invariant, the
 language of each task's events, replay of the log, and conservation between
 the status counts and the log (internal/queue/store.go:169-325).
 */
module TaskLog {
  import opened Basics
  import opened Tasks

  // The row invariant

  predicate RowOk(row: Row) {
    && row.fingerprint == Sha256(row.request)
    && 1 <= row.request.maxAttempts <= 5
    && 0 <= row.attempts <= row.request.maxAttempts
    && (row.status == Running <==> row.token != "")
    && (row.status == Running <==> row.leaseUntil.Some?)
    && (row.status == Pending ==> row.worker == "" && row.attempts < row.request.maxAttempts)
    && (row.status == Running || row.status == Completed ==> row.attempts >= 1 && row.worker != "")
    && (row.status == Failed && row.attempts == 0 ==> row.worker == "")
  }

  // The events of one task

  function Word(events: seq<Event>, id: Id): seq<Event> {
    if events == [] then []
    else
      var n := |events| - 1;
      Word(events[..n], id) + (if events[n].task == id then [events[n]] else [])
  }

  lemma WordSnoc(events: seq<Event>, e: Event, id: Id)
    ensures Word(events + [e], id) == Word(events, id) + (if e.task == id then [e] else [])
  {
    assert (events + [e])[..|events|] == events;
  }

  function Actions(word: seq<Event>): seq<Action> {
    seq(|word|, i requires 0 <= i < |word| => word[i].action)
  }

  // The language of the log

  /** (claimed lease_expired)^k */
  function Retries(k: nat): seq<Action> {
    if k == 0 then [] else Retries(k - 1) + [Claimed, LeaseExpired]
  }

  lemma {:induction false} RetriesLength(k: nat)
    ensures |Retries(k)| == 2 * k
  {
    if k == 0 {
    } else {
      RetriesLength(k - 1);
    }
  }

  predicate EndsClaim(a: Action) {
    a == ReportedCompleted || a == ReportedFailed || a == AttemptsExhausted
  }

  /** The word that a row in this state must have behind it. */
  predicate Spells(word: seq<Action>, row: Row) {
    if row.attempts < 0 then false
    else match row.status
      case Pending => word == [Created] + Retries(row.attempts)
      case Running => row.attempts >= 1 && word == [Created] + Retries(row.attempts - 1) + [Claimed]
      case Completed =>
        row.attempts >= 1 && word == [Created] + Retries(row.attempts - 1) + [Claimed, ReportedCompleted]
      case Failed =>
        if row.attempts == 0 then word == [Created, DependencyFailed]
        else
          || word == [Created] + Retries(row.attempts - 1) + [Claimed, ReportedFailed]
          || (row.attempts == row.request.maxAttempts
              && word == [Created] + Retries(row.attempts - 1) + [Claimed, AttemptsExhausted])
  }

  // Replay of the log

  datatype View = Absent | View(status: Status, worker: string, attempts: int)

  function ReplayStep(v: View, e: Event): View {
    var n := if v.View? then v.attempts else 0;
    match e.action
    case Created => View(Pending, "", 0)
    case Claimed => View(Running, e.worker, n + 1)
    case LeaseExpired => View(Pending, e.worker, n)
    case AttemptsExhausted => View(Failed, e.worker, n)
    case DependencyFailed => View(Failed, e.worker, n)
    case ReportedCompleted => View(Completed, e.worker, n)
    case ReportedFailed => View(Failed, e.worker, n)
  }

  /** Folds events, oldest first, into what a reader of the log believes about the task. */
  function Replay(word: seq<Event>): View {
    if word == [] then Absent else ReplayStep(Replay(word[..|word| - 1]), word[|word| - 1])
  }

  function ViewOf(row: Row): View { View(row.status, row.worker, row.attempts) }

  // Conservation

  function Is(st: Status): Row -> nat { (r: Row) => if r.status == st then 1 else 0 }

  /** Number of tasks in a status, as the GROUP BY of Snapshot counts them. */
  ghost function Count(tasks: map<Id, Row>, st: Status): nat { Sum(tasks, Is(st)) }

  function Occurrences(events: seq<Event>, a: Action): nat {
    if events == [] then 0
    else
      var n := |events| - 1;
      Occurrences(events[..n], a) + (if events[n].action == a then 1 else 0)
  }

  lemma OccurrencesSnoc(events: seq<Event>, e: Event, a: Action)
    ensures Occurrences(events + [e], a) == Occurrences(events, a) + (if e.action == a then 1 else 0)
  {
    assert (events + [e])[..|events|] == events;
  }

  ghost predicate Conserved(s: Db) {
    && Count(s.tasks, Completed) == Occurrences(s.events, ReportedCompleted)
    && Count(s.tasks, Failed)
       == Occurrences(s.events, ReportedFailed) + Occurrences(s.events, AttemptsExhausted)
          + Occurrences(s.events, DependencyFailed)
    && Count(s.tasks, Running) + Occurrences(s.events, ReportedCompleted) + Occurrences(s.events, ReportedFailed)
       + Occurrences(s.events, LeaseExpired) + Occurrences(s.events, AttemptsExhausted)
       == Occurrences(s.events, Claimed)
    && |s.tasks| == Occurrences(s.events, Created)
  }

  // Dependencies

  /** Stored parents exist, and a task that was ever claimed has only completed parents. */
  predicate ParentsOk(tasks: map<Id, Row>, row: Row) {
    && (forall d :: d in row.request.deps ==> d in tasks)
    && (row.attempts > 0 ==> forall d :: d in row.request.deps ==> d in tasks && tasks[d].status == Completed)
  }

  predicate KeysUnique(tasks: map<Id, Row>) {
    forall i, j :: i in tasks && j in tasks && tasks[i].request.key == tasks[j].request.key ==> i == j
  }

  /** Everything at once; each conjunct is kept by every operation. */
  ghost predicate Tables(s: Db) {
    && (forall id :: id in s.tasks ==> RowOk(s.tasks[id]))
    && (forall id :: id in s.tasks ==> ParentsOk(s.tasks, s.tasks[id]))
    && KeysUnique(s.tasks)
    && (forall id :: id in s.tasks ==> id in s.issued)
    && (forall id :: id in s.tasks && s.tasks[id].token != "" ==> s.tasks[id].token in s.issued)
  }

  ghost predicate Logged(s: Db) {
    && (forall id :: id in s.tasks ==> Spells(Actions(Word(s.events, id)), s.tasks[id]))
    && (forall id :: id in s.tasks ==> Replay(Word(s.events, id)) == ViewOf(s.tasks[id]))
    && (forall e :: e in s.events ==> e.task in s.tasks)
  }

  ghost predicate Inv(s: Db) { Tables(s) && Logged(s) && Conserved(s) }

  // Each operation keeps the invariant

  lemma NextRowOk(row: Row, op: Op)
    requires op.Insert? ==> 1 <= op.request.maxAttempts <= 5
    requires !op.Insert? ==> RowOk(row) && RowGuard(row, op)
    requires op.Block? ==> row.attempts == 0
    ensures RowOk(NextRow(row, op))
  {
  }

  /** A task that waits on a failed parent was never claimed. */
  lemma BlockedUnclaimed(s: Db, op: Op)
    requires Tables(s) && Guard(s, op) && op.Block?
    ensures s.tasks[op.id].attempts == 0
  {
    assert ParentsOk(s.tasks, s.tasks[op.id]);
  }

  lemma StepParents(s: Db, op: Op)
    requires Tables(s) && Guard(s, op)
    ensures forall id :: id in Apply(s, op).tasks ==> ParentsOk(Apply(s, op).tasks, Apply(s, op).tasks[id])
  {
    var t := Apply(s, op);
    if op.Block? { BlockedUnclaimed(s, op); }
    forall id | id in t.tasks ensures ParentsOk(t.tasks, t.tasks[id]) {
      if id in s.tasks { assert ParentsOk(s.tasks, s.tasks[id]); }
    }
  }

  lemma StepKeys(s: Db, op: Op)
    requires KeysUnique(s.tasks) && Guard(s, op)
    ensures KeysUnique(Apply(s, op).tasks)
  {
  }

  lemma StepTables(s: Db, op: Op)
    requires Tables(s) && Guard(s, op)
    ensures Tables(Apply(s, op))
  {
    if op.Block? { BlockedUnclaimed(s, op); }
    NextRowOk(RowBefore(s, op), op);
    StepParents(s, op);
    StepKeys(s, op);
  }

  /** The word of the operated task grows by the event written; no other word changes. */
  lemma StepWords(s: Db, op: Op, id: Id)
    ensures Word(Apply(s, op).events, id)
         == Word(s.events, id) + (if id == op.id then Emits(RowBefore(s, op), op) else [])
  {
    var es := Emits(RowBefore(s, op), op);
    if es == [] {
      assert s.events + es == s.events;
      assert Word(s.events, id) + [] == Word(s.events, id);
    } else {
      assert es == [es[0]];
      WordSnoc(s.events, es[0], id);
    }
  }

  lemma {:induction false} WordEmpty(events: seq<Event>, id: Id)
    requires forall e :: e in events ==> e.task != id
    ensures Word(events, id) == []
  {
    if events == [] {
    } else {
      WordEmpty(events[..|events| - 1], id);
    }
  }

  lemma ActionsSnoc(word: seq<Event>, e: Event)
    ensures Actions(word + [e]) == Actions(word) + [e.action]
    ensures Replay(word + [e]) == ReplayStep(Replay(word), e)
  {
    assert (word + [e])[..|word|] == word;
  }

  /** The word of a task still spells its row after the operation. */
  lemma SpellsNext(row: Row, word: seq<Action>, op: Op)
    requires op.Insert? ==> word == []
    requires !op.Insert? ==> RowOk(row) && RowGuard(row, op) && Spells(word, row)
    requires op.Block? ==> row.attempts == 0
    ensures op.Beat? ==> Spells(word, NextRow(row, op))
    ensures !op.Beat? ==> Spells(word + [Emits(row, op)[0].action], NextRow(row, op))
  {
    if op.Expire? {
      var w := [Created] + Retries(row.attempts - 1);
      assert Retries(row.attempts) == Retries(row.attempts - 1) + [Claimed, LeaseExpired];
      assert w + [Claimed] + [LeaseExpired] == [Created] + Retries(row.attempts);
      assert w + [Claimed] + [AttemptsExhausted] == w + [Claimed, AttemptsExhausted];
    } else if op.Finish? {
      var w := [Created] + Retries(row.attempts - 1);
      var a := Emits(row, op)[0].action;
      assert w + [Claimed] + [a] == w + [Claimed, a];
    } else if op.Block? {
      assert [Created] + Retries(0) + [DependencyFailed] == [Created, DependencyFailed];
    }
  }

  lemma ReplayNext(row: Row, v: View, op: Op)
    requires op.Insert? || (RowOk(row) && RowGuard(row, op) && v == ViewOf(row))
    ensures op.Beat? ==> v == ViewOf(NextRow(row, op))
    ensures !op.Beat? ==> ReplayStep(v, Emits(row, op)[0]) == ViewOf(NextRow(row, op))
  {
  }

  lemma StepSpells(s: Db, op: Op)
    requires Tables(s) && Logged(s) && Guard(s, op)
    ensures Spells(Actions(Word(Apply(s, op).events, op.id)), Apply(s, op).tasks[op.id])
    ensures Replay(Word(Apply(s, op).events, op.id)) == ViewOf(Apply(s, op).tasks[op.id])
  {
    var row, word := RowBefore(s, op), Word(s.events, op.id);
    var es := Emits(row, op);
    if op.Insert? { WordEmpty(s.events, op.id); }
    if op.Block? { BlockedUnclaimed(s, op); }
    StepWords(s, op, op.id);
    SpellsNext(row, Actions(word), op);
    ReplayNext(row, Replay(word), op);
    if op.Beat? {
      assert word + es == word;
    } else {
      assert es == [es[0]];
      ActionsSnoc(word, es[0]);
    }
  }

  lemma StepLogged(s: Db, op: Op)
    requires Tables(s) && Logged(s) && Guard(s, op)
    ensures Logged(Apply(s, op))
  {
    hide Spells, Replay, Actions, Word;
    var t := Apply(s, op);
    StepSpells(s, op);
    forall id | id in t.tasks && id != op.id
      ensures Spells(Actions(Word(t.events, id)), t.tasks[id]) && Replay(Word(t.events, id)) == ViewOf(t.tasks[id])
    {
      StepWords(s, op, id);
      assert Word(t.events, id) == Word(s.events, id);
    }
  }

  lemma StepOccurrences(s: Db, op: Op, a: Action)
    ensures var es := Emits(RowBefore(s, op), op);
      Occurrences(Apply(s, op).events, a) == Occurrences(s.events, a) + (if es != [] && es[0].action == a then 1 else 0)
  {
    var es := Emits(RowBefore(s, op), op);
    if es == [] {
      assert s.events + es == s.events;
    } else {
      assert es == [es[0]];
      OccurrencesSnoc(s.events, es[0], a);
    }
  }

  /** What one operation adds to a status count and to an event count. */
  lemma StepCounts(s: Db, op: Op, st: Status)
    requires Guard(s, op)
    ensures var row := RowBefore(s, op);
      Count(Apply(s, op).tasks, st) + (if op.Insert? then 0 else Is(st)(row))
      == Count(s.tasks, st) + Is(st)(NextRow(row, op))
  {
    SumUpdate(s.tasks, Is(st), op.id, NextRow(RowBefore(s, op), op));
  }

  lemma StepSize(s: Db, op: Op)
    requires Guard(s, op)
    ensures |Apply(s, op).tasks| == |s.tasks| + (if op.Insert? then 1 else 0)
  {
    assert Apply(s, op).tasks.Keys == s.tasks.Keys + {op.id};
  }

  lemma StepConserved(s: Db, op: Op)
    requires Conserved(s) && Guard(s, op)
    ensures Conserved(Apply(s, op))
  {
    hide Count, Occurrences, Apply;
    StepCounts(s, op, Completed);
    StepCounts(s, op, Failed);
    StepCounts(s, op, Running);
    StepSize(s, op);
    StepOccurrences(s, op, Created);
    StepOccurrences(s, op, Claimed);
    StepOccurrences(s, op, LeaseExpired);
    StepOccurrences(s, op, AttemptsExhausted);
    StepOccurrences(s, op, DependencyFailed);
    StepOccurrences(s, op, ReportedCompleted);
    StepOccurrences(s, op, ReportedFailed);
  }

  lemma StepInv(s: Db, op: Op)
    requires Inv(s) && Guard(s, op)
    ensures Inv(Apply(s, op))
  {
    StepTables(s, op);
    StepLogged(s, op);
    StepConserved(s, op);
  }

  /** The invariant holds in every state that any run from the empty tables can reach. */
  lemma {:induction false} Reachable(ops: seq<Op>)
    requires Run(EMPTY, ops)
    ensures Inv(State(EMPTY, ops))
    decreases |ops|
  {
    if ops == [] {
    } else {
      Reachable(ops[..|ops| - 1]);
      StepInv(State(EMPTY, ops[..|ops| - 1]), ops[|ops| - 1]);
    }
  }

  // What the invariant says in the terms of the log

  /** The complete words a task with this retry limit can spell. */
  ghost predicate InLanguage(w: seq<Action>, maxAttempts: int) {
    || w == [Created, DependencyFailed]
    || exists k: nat, a :: k < maxAttempts && EndsClaim(a) && w == [Created] + Retries(k) + [Claimed, a]
  }

  lemma LanguageLength(w: seq<Action>, maxAttempts: int)
    requires InLanguage(w, maxAttempts) && maxAttempts >= 1
    ensures |w| <= 2 * maxAttempts + 1
  {
    if w != [Created, DependencyFailed] {
      var k: nat, a :| k < maxAttempts && EndsClaim(a) && w == [Created] + Retries(k) + [Claimed, a];
      RetriesLength(k);
    }
  }

  /** The row's word can be completed to a word of the language. */
  lemma SpellsPrefix(word: seq<Action>, row: Row) returns (w: seq<Action>)
    requires RowOk(row) && Spells(word, row)
    ensures InLanguage(w, row.request.maxAttempts) && word <= w
  {
    if row.status == Failed && row.attempts == 0 {
      w := word;
    } else {
      var k: nat := if row.status == Pending then row.attempts else row.attempts - 1;
      var a := if row.Terminal() then word[|word| - 1] else ReportedCompleted;
      w := [Created] + Retries(k) + [Claimed, a];
      assert word <= w;
    }
  }

  /** Every task's events are a prefix of a word of the language, so at most 2 * max_attempts + 1 of them. */
  lemma EventLanguage(ops: seq<Op>, id: Id)
    requires Run(EMPTY, ops) && id in State(EMPTY, ops).tasks
    ensures var s := State(EMPTY, ops);
      && (exists w :: InLanguage(w, s.tasks[id].request.maxAttempts) && Actions(Word(s.events, id)) <= w)
      && |Word(s.events, id)| <= 2 * s.tasks[id].request.maxAttempts + 1
  {
    Reachable(ops);
    var s := State(EMPTY, ops);
    var w := SpellsPrefix(Actions(Word(s.events, id)), s.tasks[id]);
    LanguageLength(w, s.tasks[id].request.maxAttempts);
  }

  function ClaimedIn(word: seq<Action>): nat {
    if word == [] then 0 else ClaimedIn(word[..|word| - 1]) + (if word[|word| - 1] == Claimed then 1 else 0)
  }

  lemma {:induction false} ClaimedInAppend(a: seq<Action>, b: seq<Action>)
    ensures ClaimedIn(a + b) == ClaimedIn(a) + ClaimedIn(b)
    decreases |b|
  {
    if b == [] {
      assert a + b == a;
    } else {
      ClaimedInAppend(a, b[..|b| - 1]);
      assert (a + b)[..|a + b| - 1] == a + b[..|b| - 1];
    }
  }

  lemma {:induction false} ClaimedInRetries(k: nat)
    ensures ClaimedIn([Created] + Retries(k)) == k
  {
    if k == 0 {
      assert [Created] + Retries(0) == [Created];
      assert [Created][..0] == [];
    } else {
      ClaimedInRetries(k - 1);
      var w := [Created] + Retries(k - 1);
      assert [Created] + Retries(k) == w + [Claimed, LeaseExpired];
      assert (w + [Claimed, LeaseExpired])[..|w| + 1] == w + [Claimed];
      assert (w + [Claimed])[..|w|] == w;
    }
  }

  /** What follows the retries in the word of a claimed task holds one claim. */
  lemma ClaimedInEnd(end: seq<Action>)
    requires end == [Claimed] || (|end| == 2 && end[0] == Claimed && end[1] != Claimed)
    ensures ClaimedIn(end) == 1
  {
    assert end[..1] == [Claimed];
    assert [Claimed][..0] == [];
  }

  lemma ClaimedInSpells(word: seq<Action>, row: Row)
    requires RowOk(row) && Spells(word, row)
    ensures ClaimedIn(word) == row.attempts
  {
    if row.status == Failed && row.attempts == 0 {
      ClaimedInRetries(0);
      assert word[..|word| - 1] == [Created] + Retries(0);
    } else if row.status == Pending {
      ClaimedInRetries(row.attempts);
    } else {
      var w := [Created] + Retries(row.attempts - 1);
      hide ClaimedIn, Retries;
      ClaimedInRetries(row.attempts - 1);
      assert word == w + word[|w|..];
      ClaimedInEnd(word[|w|..]);
      ClaimedInAppend(w, word[|w|..]);
    }
  }

  /** Claim never tests `attempts`, yet it counts the claims and never passes the limit. */
  lemma RetryBound(ops: seq<Op>, id: Id)
    requires Run(EMPTY, ops) && id in State(EMPTY, ops).tasks
    ensures var s := State(EMPTY, ops);
      ClaimedIn(Actions(Word(s.events, id))) == s.tasks[id].attempts <= s.tasks[id].request.maxAttempts
  {
    Reachable(ops);
    var s := State(EMPTY, ops);
    ClaimedInSpells(Actions(Word(s.events, id)), s.tasks[id]);
  }

  /** The four counts of Snapshot cover every task. */
  lemma CountsAddUp(tasks: map<Id, Row>)
    ensures Count(tasks, Pending) + Count(tasks, Running) + Count(tasks, Completed) + Count(tasks, Failed) == |tasks|
  {
    var open := (r: Row) => Is(Pending)(r) + Is(Running)(r);
    var shut := (r: Row) => Is(Completed)(r) + Is(Failed)(r);
    var all := (r: Row) => 1;
    SumSplit(tasks, Is(Pending), Is(Running), open);
    SumSplit(tasks, Is(Completed), Is(Failed), shut);
    SumSplit(tasks, open, shut, all);
    SumOnes(tasks, all);
  }
}
