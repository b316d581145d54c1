/**
 When the operations of one transaction still run, with the same effect and the
 same events, after another transaction has committed.
 */
module Framing {
  import opened Tasks
  import opened TaskLog

  function Ids(ops: seq<Op>): set<Id> { set op | op in ops :: op.id }

  function Nonces(ops: seq<Op>): set<string> { set op, x | op in ops && x in Nonce(op) :: x }

  function NewKeys(ops: seq<Op>): set<string> { set op | op in ops && op.Insert? :: op.request.key }

  lemma OpsSnoc(ops: seq<Op>, op: Op)
    ensures Ids(ops + [op]) == Ids(ops) + {op.id}
    ensures Nonces(ops + [op]) == Nonces(ops) + Nonce(op)
    ensures NewKeys(ops + [op]) == NewKeys(ops) + (if op.Insert? then {op.request.key} else {})
  {
    assert forall x :: x in ops + [op] <==> x in ops || x == op;
    assert op in ops + [op];
  }

  /** Events written by a run, oldest first. */
  function Emission(s: Db, ops: seq<Op>): seq<Event> {
    if ops == [] then []
    else
      var n := |ops| - 1;
      Emission(s, ops[..n]) + Emits(RowBefore(State(s, ops[..n]), ops[n]), ops[n])
  }

  lemma {:induction false} EmissionIsSuffix(s: Db, ops: seq<Op>)
    ensures State(s, ops).events == s.events + Emission(s, ops)
    decreases |ops|
  {
    if ops == [] {
    } else {
      EmissionIsSuffix(s, ops[..|ops| - 1]);
    }
  }

  lemma EmissionSnoc(s: Db, ops: seq<Op>, op: Op)
    ensures Emission(s, ops + [op]) == Emission(s, ops) + Emits(RowBefore(State(s, ops), op), op)
  {
    assert (ops + [op])[..|ops|] == ops;
  }

  lemma OpsAppend(a: seq<Op>, b: seq<Op>)
    ensures Ids(a + b) == Ids(a) + Ids(b)
    ensures Nonces(a + b) == Nonces(a) + Nonces(b)
    ensures NewKeys(a + b) == NewKeys(a) + NewKeys(b)
  {
    assert forall x :: x in a + b <==> x in a || x in b;
  }

  lemma {:induction false} EmissionAppend(s: Db, a: seq<Op>, b: seq<Op>)
    ensures Emission(s, a + b) == Emission(s, a) + Emission(State(s, a), b)
    decreases |b|
  {
    hide State, Emission;
    if b == [] {
      assert a + b == a;
      EmissionNil(State(s, a));
      assert Emission(s, a) + [] == Emission(s, a);
    } else {
      var n := |b| - 1;
      EmissionAppend(s, a, b[..n]);
      EmissionAppendStep(s, a, b[..n], b[n]);
      assert b == b[..n] + [b[n]];
    }
  }

  lemma EmissionNil(s: Db)
    ensures Emission(s, []) == []
  {
  }

  lemma EmissionAppendStep(s: Db, a: seq<Op>, b: seq<Op>, op: Op)
    requires Emission(s, a + b) == Emission(s, a) + Emission(State(s, a), b)
    ensures Emission(s, a + (b + [op])) == Emission(s, a) + Emission(State(s, a), b + [op])
  {
    hide State, Emission, Emits, RowBefore;
    Append(s, a, b);
    EmissionSnoc(s, a + b, op);
    EmissionSnoc(State(s, a), b, op);
    assert a + (b + [op]) == a + b + [op];
  }

  /** A run touches only the rows, nonces and keys of its operations. */
  lemma {:induction false} Untouched(s: Db, ops: seq<Op>)
    requires Run(s, ops)
    ensures State(s, ops).tasks.Keys == s.tasks.Keys + Ids(ops)
    ensures forall id :: id in s.tasks && id !in Ids(ops) ==> State(s, ops).tasks[id] == s.tasks[id]
    ensures State(s, ops).issued == s.issued + Nonces(ops)
    ensures forall k :: KeyTaken(State(s, ops).tasks, k) ==> KeyTaken(s.tasks, k) || k in NewKeys(ops)
    decreases |ops|
  {
    hide Apply, Guard, KeyTaken, Ids, Nonces, NewKeys;
    if ops == [] {
      assert Ids(ops) == {} && Nonces(ops) == {} by { NoOps(); }
    } else {
      var n := |ops| - 1;
      Untouched(s, ops[..n]);
      OpsSnoc(ops[..n], ops[n]);
      assert ops == ops[..n] + [ops[n]];
      UntouchedStep(State(s, ops[..n]), ops[n]);
    }
  }

  lemma NoOps()
    ensures Ids([]) == {} && Nonces([]) == {} && NewKeys([]) == {}
  {
  }

  lemma UntouchedStep(s: Db, op: Op)
    requires Guard(s, op)
    ensures Apply(s, op).tasks.Keys == s.tasks.Keys + {op.id}
    ensures forall id :: id in s.tasks && id != op.id ==> Apply(s, op).tasks[id] == s.tasks[id]
    ensures Apply(s, op).issued == s.issued + Nonce(op)
    ensures forall k :: KeyTaken(Apply(s, op).tasks, k) ==> KeyTaken(s.tasks, k) || (op.Insert? && k == op.request.key)
  {
    forall k | KeyTaken(Apply(s, op).tasks, k)
      ensures KeyTaken(s.tasks, k) || (op.Insert? && k == op.request.key)
    {
      var id :| id in Apply(s, op).tasks && Apply(s, op).tasks[id].request.key == k;
      if id != op.id || !op.Insert? {
        assert id in s.tasks && s.tasks[id].request.key == k;
      }
    }
  }

  /**
   `t` is `s` plus the work of others: on `ids` they agree, `keys` and `nonces`
   are as unused in `t` as in `s`, and everything else has only evolved.
   */
  ghost predicate Compatible(s: Db, t: Db, ids: set<Id>, keys: set<string>, nonces: set<string>) {
    && Evolves(s.tasks, t.tasks)
    && (forall id :: id in ids ==> (id in t.tasks ==> id in s.tasks && t.tasks[id] == s.tasks[id]))
    && (forall k :: k in keys && KeyTaken(t.tasks, k) ==> KeyTaken(s.tasks, k))
    && (forall n :: n in nonces && n in t.issued ==> n in s.issued)
  }

  predicate DepsClosed(tasks: map<Id, Row>) {
    forall id, d :: id in tasks && d in tasks[id].request.deps ==> d in tasks
  }

  lemma CompatibleGuard(s: Db, t: Db, ids: set<Id>, keys: set<string>, nonces: set<string>, op: Op)
    requires Compatible(s, t, ids, keys, nonces) && DepsClosed(s.tasks) && Guard(s, op)
    requires op.id in ids && Nonce(op) <= nonces && (op.Insert? ==> op.request.key in keys)
    ensures Guard(t, op) && RowBefore(t, op) == RowBefore(s, op)
  {
    if op.Insert? {
      assert op.id in Nonce(op);
    } else {
      var row := s.tasks[op.id];
      assert t.tasks[op.id] == row;
      if op.Block? {
        var d :| d in row.request.deps && d in s.tasks && s.tasks[d].status == Failed;
        assert s.tasks[d].Terminal() && t.tasks[d].status == Failed;
      } else if op.Take? {
        assert op.token in Nonce(op);
        forall d | d in row.request.deps && d in t.tasks ensures t.tasks[d].status == Completed {
          assert d in s.tasks && s.tasks[d].Terminal();
        }
      }
    }
  }

  lemma CompatibleKeys(s: Db, t: Db, keys: set<string>, op: Op, k: string)
    requires (forall k :: k in keys && KeyTaken(t.tasks, k) ==> KeyTaken(s.tasks, k)) && Guard(t, op) && Guard(s, op)
    requires k in keys && KeyTaken(Apply(t, op).tasks, k)
    ensures KeyTaken(Apply(s, op).tasks, k)
  {
    hide Guard, Apply, KeyTaken;
    UntouchedStep(t, op);
    KeyStays(s, op, k);
  }

  /** No operation frees a key, and an insert takes its own. */
  lemma KeyStays(s: Db, op: Op, k: string)
    requires Guard(s, op) && (KeyTaken(s.tasks, k) || (op.Insert? && k == op.request.key))
    ensures KeyTaken(Apply(s, op).tasks, k)
  {
    var id := op.id;
    if KeyTaken(s.tasks, k) { id :| id in s.tasks && s.tasks[id].request.key == k; }
    assert Apply(s, op).tasks[id].request.key == k;
  }

  lemma CompatibleRows(s: Db, t: Db, op: Op)
    requires Evolves(s.tasks, t.tasks) && RowBefore(t, op) == RowBefore(s, op)
    ensures Evolves(Apply(s, op).tasks, Apply(t, op).tasks)
  {
  }

  lemma CompatibleStep(s: Db, t: Db, ids: set<Id>, keys: set<string>, nonces: set<string>, op: Op)
    requires Compatible(s, t, ids, keys, nonces) && Guard(s, op) && Guard(t, op) && RowBefore(t, op) == RowBefore(s, op)
    ensures Compatible(Apply(s, op), Apply(t, op), ids, keys, nonces)
  {
    hide Guard, Evolves, KeyTaken;
    CompatibleRows(s, t, op);
    forall k | k in keys && KeyTaken(Apply(t, op).tasks, k) ensures KeyTaken(Apply(s, op).tasks, k) {
      CompatibleKeys(s, t, keys, op, k);
    }
  }

  /** The frame rule: the operations of a transaction survive what others did. */
  lemma {:induction false} Survives(s: Db, t: Db, ids: set<Id>, keys: set<string>, nonces: set<string>, ops: seq<Op>)
    requires Inv(s) && Run(s, ops) && Compatible(s, t, ids, keys, nonces)
    requires Ids(ops) <= ids && NewKeys(ops) <= keys && Nonces(ops) <= nonces
    ensures Run(t, ops) && Emission(t, ops) == Emission(s, ops)
    ensures Inv(State(s, ops)) && Compatible(State(s, ops), State(t, ops), ids, keys, nonces)
    decreases |ops|
  {
    hide Inv, Apply, Guard, Compatible, Ids, NewKeys, Nonces;
    if ops == [] {
    } else {
      var n := |ops| - 1;
      var s', t', op := State(s, ops[..n]), State(t, ops[..n]), ops[n];
      OpsSnoc(ops[..n], op);
      assert ops == ops[..n] + [op];
      Survives(s, t, ids, keys, nonces, ops[..n]);
      InvDeps(s');
      CompatibleGuard(s', t', ids, keys, nonces, op);
      CompatibleStep(s', t', ids, keys, nonces, op);
      StepInv(s', op);
    }
  }

  lemma InvDeps(s: Db)
    requires Inv(s)
    ensures DepsClosed(s.tasks)
  {
    hide Logged, Conserved;
    forall id, d | id in s.tasks && d in s.tasks[id].request.deps ensures d in s.tasks {
      assert ParentsOk(s.tasks, s.tasks[id]);
    }
  }

  /** What another run `others` leaves behind is compatible with operations on other rows, keys and nonces. */
  lemma OthersCompatible(s: Db, others: seq<Op>, ops: seq<Op>)
    requires Run(s, others)
    requires Ids(others) !! Ids(ops) && Nonces(others) !! Nonces(ops) && NewKeys(others) !! NewKeys(ops)
    ensures Compatible(s, State(s, others), Ids(ops), NewKeys(ops), Nonces(ops))
  {
    hide Ids, Nonces, NewKeys, Run, State;
    RunEvolves(s, others);
    Untouched(s, others);
  }

  /** Two transactions on different rows commute with the second one's effect on its own rows. */
  lemma Commute(s: Db, others: seq<Op>, ops: seq<Op>, writes: map<Id, Row>)
    requires Inv(s) && Run(s, others) && Run(s, ops)
    requires Ids(others) !! Ids(ops) && Nonces(others) !! Nonces(ops) && NewKeys(others) !! NewKeys(ops)
    requires writes.Keys == Ids(ops) && State(s, ops).tasks == s.tasks + writes
    ensures Run(State(s, others), ops)
    ensures State(State(s, others), ops).tasks == State(s, others).tasks + writes
    ensures Emission(State(s, others), ops) == Emission(s, ops)
  {
    hide Ids, Nonces, NewKeys, Run, State, Inv, Emission, Evolves, KeyTaken;
    var t := State(s, others);
    OthersCompatible(s, others, ops);
    Survives(s, t, Ids(ops), NewKeys(ops), Nonces(ops), ops);
    Untouched(t, ops);
    Untouched(s, ops);
    CompatibleOn(State(s, ops), State(t, ops), Ids(ops), NewKeys(ops), Nonces(ops));
    assert State(t, ops).tasks == t.tasks + writes;
  }

  lemma CompatibleOn(s: Db, t: Db, ids: set<Id>, keys: set<string>, nonces: set<string>)
    requires Compatible(s, t, ids, keys, nonces)
    ensures forall id :: id in ids && id in s.tasks ==> id in t.tasks && t.tasks[id] == s.tasks[id]
  {
  }
}
