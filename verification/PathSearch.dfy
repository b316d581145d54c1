/**
 The bounded breadth-first path search shared by findPaths and the inner loop of
 findAttackChains (profiles/reference/sec/extensions/security-graph.ts:165-199, 222-260).

 Results are compared with walks, sequences of positions in the edge list, so
 that parallel edges give different results even where the node paths agree.
 */
module PathSearch {
  import opened Basics
  import opened SecurityGraph

  type Walk = seq<nat>

  /** What is searched for: simple walks from source to target over allowed edges. */
  datatype Query = Query(edges: seq<Edge>, allow: set<Relationship>, source: string, target: string, maxDepth: int) {

    predicate InRange(w: Walk) { forall i :: 0 <= i < |w| ==> w[i] < |edges| }

    /** Edge `i` of the walk is allowed and leaves where the walk has come to. */
    predicate Follows(w: Walk, i: int)
      requires InRange(w) && 0 <= i < |w|
    {
      edges[w[i]].rel in allow && edges[w[i]].from == (if i == 0 then source else edges[w[i - 1]].to)
    }

    /** Consecutive edges that start at the source. */
    predicate IsWalk(w: Walk) {
      InRange(w) && forall i :: 0 <= i < |w| ==> Follows(w, i)
    }

    function Nodes(w: Walk): seq<string>
      requires IsWalk(w)
    {
      [source] + seq(|w|, i requires 0 <= i < |w| => edges[w[i]].to)
    }

    function End(w: Walk): string
      requires IsWalk(w)
    {
      if w == [] then source else edges[w[|w| - 1]].to
    }

    function EdgesOf(w: Walk): seq<Edge>
      requires IsWalk(w)
    {
      seq(|w|, i requires 0 <= i < |w| => edges[w[i]])
    }

    /** The specification of a result. */
    predicate Answers(w: Walk) {
      IsWalk(w) && Distinct(Nodes(w)) && 1 <= |w| <= maxDepth && End(w) == target
    }

    /** The same without positions: a simple path of nodes and the stored edges that join them. */
    predicate Joins(path: seq<string>, route: seq<Edge>) {
      && |path| == |route| + 1 && path[0] == source && path[|route|] == target && Distinct(path)
      && 1 <= |route| <= maxDepth
      && forall i :: 0 <= i < |route| ==> route[i] in edges && route[i].from == path[i] && route[i].to == path[i + 1]
    }

    predicate Route(path: seq<string>, route: seq<Edge>) {
      Joins(path, route) && forall i :: 0 <= i < |route| ==> route[i].rel in allow
    }

    /** A walk waiting in the queue. */
    predicate Open(w: Walk) {
      IsWalk(w) && Distinct(Nodes(w)) && (w == [] || |w| < maxDepth)
    }
  }

  /** A queue entry of the search. */
  datatype Entry = Entry(node: string, path: seq<string>, edges: seq<Edge>, visited: set<string>)

  predicate EntryOk(q: Query, e: Entry, w: Walk) {
    && q.Open(w) && e.node == q.End(w) && e.path == q.Nodes(w) && e.edges == q.EdgesOf(w)
    && e.visited == set x | x in e.path
  }

  // Extending a walk by one edge

  predicate CanExtend(q: Query, w: Walk, i: nat) {
    && q.IsWalk(w) && i < |q.edges| && q.edges[i].from == q.End(w) && q.edges[i].rel in q.allow
    && q.edges[i].to !in q.Nodes(w)
  }

  lemma Extend(q: Query, w: Walk, i: nat)
    requires CanExtend(q, w, i) && Distinct(q.Nodes(w))
    ensures q.IsWalk(w + [i]) && Distinct(q.Nodes(w + [i])) && q.End(w + [i]) == q.edges[i].to
    ensures q.Nodes(w + [i]) == q.Nodes(w) + [q.edges[i].to]
    ensures q.EdgesOf(w + [i]) == q.EdgesOf(w) + [q.edges[i]]
  {
    var v := w + [i];
    assert q.InRange(v);
    forall k | 0 <= k < |v| ensures q.Follows(v, k) {
      if k < |w| { assert q.Follows(w, k); }
    }
    assert q.Nodes(v) == q.Nodes(w) + [q.edges[i].to];
  }

  lemma WalkPrefix(q: Query, w: Walk, v: Walk)
    requires q.IsWalk(v) && w <= v
    ensures q.IsWalk(w) && q.Nodes(w) <= q.Nodes(v)
  {
    forall k | 0 <= k < |w| ensures w[k] < |q.edges| && w[k] == v[k] {}
    forall k | 0 <= k < |w| ensures q.Follows(w, k) {
      assert q.Follows(v, k);
    }
  }

  /** The next edge of an answer that goes through an open walk is one the search will try. */
  lemma NextEdge(q: Query, w: Walk, v: Walk)
    requires q.Answers(v) && w < v
    ensures CanExtend(q, w, v[|w|]) && w + [v[|w|]] <= v
    ensures w + [v[|w|]] == v || (|w| + 1 < q.maxDepth && q.edges[v[|w|]].to != q.target)
  {
    WalkPrefix(q, w, v);
    var n := |w|;
    assert q.Follows(v, n);
    assert q.Nodes(v)[n + 1] == q.edges[v[n]].to;
    assert q.Nodes(v)[..n + 1] == q.Nodes(w);
    forall x | x in q.Nodes(w) ensures x != q.edges[v[n]].to {
      var k :| 0 <= k < |q.Nodes(w)| && q.Nodes(w)[k] == x;
      assert q.Nodes(v)[k] == x;
    }
    assert v[..n + 1] == w + [v[n]];
    if n + 1 < |v| {
      assert q.Nodes(v)[|v|] == q.target;
    }
  }

  /** Neither of two different walks of a list is a prefix of the other. */
  predicate Antichain(ws: seq<Walk>) {
    forall i, j :: 0 <= i < |ws| && 0 <= j < |ws| && i != j ==> !(ws[i] <= ws[j])
  }

  /** What one queue entry contributes: finished children and children to search further. */
  ghost predicate Children(q: Query, w: Walk, tried: seq<nat>, found: seq<Walk>, open: seq<Walk>) {
    && (forall i :: 0 <= i < |found| ==> q.Answers(found[i]) && |found[i]| == |w| + 1 && w < found[i])
    && (forall i :: 0 <= i < |open| ==> q.Open(open[i]) && |open[i]| == |w| + 1 && w < open[i])
    && (forall c :: c in found || c in open ==> c[|w|] in tried)
    && Antichain(found + open)
    && (forall v :: q.Answers(v) && w < v && v[|w|] in tried ==> v in found || exists c :: c in open && c < v)
  }

  lemma ChildrenNone(q: Query, w: Walk)
    ensures Children(q, w, [], [], [])
  {
  }

  /** An edge that leads back, is not allowed, or ends too deep away from the target adds nothing. */
  lemma ChildrenSkip(q: Query, w: Walk, tried: seq<nat>, i: nat, found: seq<Walk>, open: seq<Walk>)
    requires Children(q, w, tried, found, open)
    requires !CanExtend(q, w, i) || (q.edges[i].to != q.target && |w| + 1 >= q.maxDepth)
    ensures Children(q, w, tried + [i], found, open)
  {
    forall v | q.Answers(v) && w < v && v[|w|] in tried + [i] ensures v in found || exists c :: c in open && c < v {
      NextEdge(q, w, v);
    }
  }

  lemma AntichainFound(found: seq<Walk>, open: seq<Walk>, w: Walk, i: nat, tried: seq<nat>)
    requires Antichain(found + open) && i !in tried
    requires forall c :: c in found || c in open ==> |c| == |w| + 1 && c[|w|] in tried
    ensures Antichain((found + [w + [i]]) + open) && Antichain(found + (open + [w + [i]]))
  {
    var v := w + [i];
    assert v[|w|] == i;
    forall c | c in found || c in open ensures !(c <= v) && !(v <= c) {}
    var a, b, o := (found + [v]) + open, found + (open + [v]), found + open;
    forall x, y | 0 <= x < |a| && 0 <= y < |a| && x != y ensures !(a[x] <= a[y]) {
      if x != |found| && y != |found| {
        assert a[x] == o[if x < |found| then x else x - 1] && a[y] == o[if y < |found| then y else y - 1];
      } else if x == |found| {
        assert a[y] in found || a[y] in open;
      } else {
        assert a[x] in found || a[x] in open;
      }
    }
    forall x, y | 0 <= x < |b| && 0 <= y < |b| && x != y ensures !(b[x] <= b[y]) {
      if x < |o| && y < |o| {
        assert b[x] == o[x] && b[y] == o[y];
      } else if x == |o| {
        assert b[y] in found || b[y] in open;
      } else {
        assert b[x] in found || b[x] in open;
      }
    }
  }

  lemma ExtendAnswers(q: Query, w: Walk, i: nat)
    requires CanExtend(q, w, i) && Distinct(q.Nodes(w)) && q.edges[i].to == q.target && |w| + 1 <= q.maxDepth
    ensures q.Answers(w + [i])
  {
    Extend(q, w, i);
  }

  lemma ExtendOpen(q: Query, w: Walk, i: nat)
    requires CanExtend(q, w, i) && Distinct(q.Nodes(w)) && |w| + 1 < q.maxDepth
    ensures q.Open(w + [i])
  {
    Extend(q, w, i);
  }

  /** The tests of the loop decide whether the walk can be extended. */
  lemma TriedEdge(q: Query, e: Entry, w: Walk, i: nat)
    requires EntryOk(q, e, w) && i < |q.edges| && q.edges[i].from == e.node
    ensures CanExtend(q, w, i) <==> q.edges[i].to !in e.visited && q.edges[i].rel in q.allow
    ensures q.IsWalk(w) && Distinct(q.Nodes(w)) && |e.path| == |w| + 1
  {
  }

  lemma ExtendEntry(q: Query, e: Entry, w: Walk, i: nat)
    requires EntryOk(q, e, w) && CanExtend(q, w, i)
    ensures q.IsWalk(w + [i])
    ensures e.path + [q.edges[i].to] == q.Nodes(w + [i]) && e.edges + [q.edges[i]] == q.EdgesOf(w + [i])
    ensures |w| + 1 < q.maxDepth ==>
      var to := q.edges[i].to;
      EntryOk(q, Entry(to, e.path + [to], e.edges + [q.edges[i]], e.visited + {to}), w + [i])
  {
    Extend(q, w, i);
  }

  /** An edge to the target finishes a walk. */
  lemma ChildrenFinish(q: Query, w: Walk, tried: seq<nat>, i: nat, found: seq<Walk>, open: seq<Walk>)
    requires Children(q, w, tried, found, open) && CanExtend(q, w, i) && Distinct(q.Nodes(w)) && i !in tried
    requires q.edges[i].to == q.target && |w| + 1 <= q.maxDepth
    ensures Children(q, w, tried + [i], found + [w + [i]], open)
  {
    hide Antichain, Query.IsWalk, Distinct, Query.Answers, Query.Open;
    Extend(q, w, i);
    ExtendAnswers(q, w, i);
    AntichainFound(found, open, w, i, tried);
    forall v | q.Answers(v) && w < v && v[|w|] in tried + [i]
      ensures v in found + [w + [i]] || exists c :: c in open && c < v
    {
      if v[|w|] == i { NextEdge(q, w, v); }
    }
  }

  /** Any other edge leads to a walk to search further. */
  lemma ChildrenContinue(q: Query, w: Walk, tried: seq<nat>, i: nat, found: seq<Walk>, open: seq<Walk>)
    requires Children(q, w, tried, found, open) && CanExtend(q, w, i) && Distinct(q.Nodes(w)) && i !in tried
    requires q.edges[i].to != q.target && |w| + 1 < q.maxDepth
    ensures Children(q, w, tried + [i], found, open + [w + [i]])
  {
    hide Antichain, Query.IsWalk, Distinct, Query.Answers, Query.Open;
    ExtendOpen(q, w, i);
    AntichainFound(found, open, w, i, tried);
    forall v | q.Answers(v) && w < v && v[|w|] in tried + [i]
      ensures v in found || exists c :: c in open + [w + [i]] && c < v
    {
      ContinueCovers(q, w, tried, i, found, open, v);
    }
  }

  lemma ContinueCovers(q: Query, w: Walk, tried: seq<nat>, i: nat, found: seq<Walk>, open: seq<Walk>, v: Walk)
    requires Children(q, w, tried, found, open) && q.IsWalk(w) && i < |q.edges| && q.edges[i].to != q.target
    requires q.Answers(v) && w < v && v[|w|] in tried + [i]
    ensures v in found || exists c :: c in open + [w + [i]] && c < v
  {
    hide Antichain, Query.IsWalk, Distinct;
    NextEdge(q, w, v);
    var more := open + [w + [i]];
    if v[|w|] in tried {
      if v !in found {
        var c :| c in open && c < v;
        assert c in more;
      }
    } else {
      LastIsTarget(q, w, i, v);
      assert w + [i] in more && w + [i] < v;
    }
  }

  lemma LastIsTarget(q: Query, w: Walk, i: nat, v: Walk)
    requires q.Answers(v) && w + [i] <= v && i < |q.edges| && q.edges[i].to != q.target
    ensures w + [i] < v
  {
    assert v[|w|] == i;
  }

  /** Results as the program reports them: node paths and edge lists of the walks. */
  ghost predicate Reports(q: Query, walks: seq<Walk>, paths: seq<seq<string>>, chains: seq<seq<Edge>>) {
    && |paths| == |chains| == |walks|
    && forall i :: 0 <= i < |walks| ==>
         q.Answers(walks[i]) && paths[i] == q.Nodes(walks[i]) && chains[i] == q.EdgesOf(walks[i])
  }

  /** Queue entries and the walks they stand for. */
  predicate Queued(q: Query, queue: seq<Entry>, open: seq<Walk>) {
    |queue| == |open| && forall i :: 0 <= i < |queue| ==> EntryOk(q, queue[i], open[i])
  }

  lemma ReportsMore(q: Query, walks: seq<Walk>, paths: seq<seq<string>>, chains: seq<seq<Edge>>, v: Walk)
    requires Reports(q, walks, paths, chains) && q.Answers(v)
    ensures Reports(q, walks + [v], paths + [q.Nodes(v)], chains + [q.EdgesOf(v)])
  {
  }

  lemma ReportsAppend(q: Query, w1: seq<Walk>, p1: seq<seq<string>>, c1: seq<seq<Edge>>,
                      w2: seq<Walk>, p2: seq<seq<string>>, c2: seq<seq<Edge>>)
    requires Reports(q, w1, p1, c1) && Reports(q, w2, p2, c2)
    ensures Reports(q, w1 + w2, p1 + p2, c1 + c2)
  {
  }

  lemma QueuedMore(q: Query, queue: seq<Entry>, open: seq<Walk>, e: Entry, w: Walk)
    requires Queued(q, queue, open) && EntryOk(q, e, w)
    ensures Queued(q, queue + [e], open + [w])
  {
  }

  lemma NextIndex(index: seq<nat>, k: nat)
    requires k < |index| && Increasing(index)
    ensures index[..k + 1] == index[..k] + [index[k]] && index[k] !in index[..k]
  {
  }

  /** The body of the search loop for one queue entry. */
  method Expand(q: Query, e: Entry, neighbours: seq<Edge>, ghost w: Walk)
    returns (paths: seq<seq<string>>, chains: seq<seq<Edge>>, queue: seq<Entry>,
             ghost found: seq<Walk>, ghost open: seq<Walk>)
    requires EntryOk(q, e, w) && |w| < q.maxDepth && neighbours == Out(q.edges, e.node)
    ensures Children(q, w, OutIndices(q.edges, e.node), found, open)
    ensures Reports(q, found, paths, chains) && Queued(q, queue, open)
  {
    paths, chains, queue, found, open := [], [], [], [], [];
    ghost var index := OutIndices(q.edges, e.node);
    OutIsIndexed(q.edges, e.node);
    ChildrenNone(q, w);
    for k := 0 to |neighbours|
      invariant Children(q, w, index[..k], found, open)
      invariant Reports(q, found, paths, chains) && Queued(q, queue, open)
    {
      hide Reports, Queued, Antichain, Children, OutIndices, Out, EntryOk, CanExtend, Query.Answers, Query.IsWalk,
        Distinct, Increasing, AllIndexed;
      var edge := neighbours[k];
      ghost var i := index[k];
      NextIndex(index, k);
      TriedEdge(q, e, w, i);
      if edge.to in e.visited || edge.rel !in q.allow {
        ChildrenSkip(q, w, index[..k], i, found, open);
        continue;
      }
      ExtendEntry(q, e, w, i);
      var newPath := e.path + [edge.to];
      var newEdges := e.edges + [edge];
      if edge.to == q.target {
        ChildrenFinish(q, w, index[..k], i, found, open);
        ExtendAnswers(q, w, i);
        ReportsMore(q, found, paths, chains, w + [i]);
        paths, chains, found := paths + [newPath], chains + [newEdges], found + [w + [i]];
      } else if |newPath| - 1 < q.maxDepth {
        ChildrenContinue(q, w, index[..k], i, found, open);
        var next := Entry(edge.to, newPath, newEdges, e.visited + {edge.to});
        QueuedMore(q, queue, open, next, w + [i]);
        queue, open := queue + [next], open + [w + [i]];
      } else {
        ChildrenSkip(q, w, index[..k], i, found, open);
      }
    }
    assert index[..|neighbours|] == index;
  }

  // The queue

  /** Everything the search keeps true between two queue entries. */
  ghost predicate Searching(q: Query, found: seq<Walk>, open: seq<Walk>) {
    && (forall i :: 0 <= i < |found| ==> q.Answers(found[i]))
    && (forall i :: 0 <= i < |open| ==> q.Open(open[i]))
    && Antichain(found + open)
    && Covered(q, found, open)
    && Levelled(found, open)
  }

  /** No answer is lost: it has been found or one of its prefixes is waiting. */
  ghost predicate Covered(q: Query, found: seq<Walk>, open: seq<Walk>) {
    forall v :: q.Answers(v) ==> v in found || exists c :: c in open && c < v
  }

  /** Breadth first: found walks by length, then waiting walks by length, at most two lengths waiting. */
  predicate Levelled(found: seq<Walk>, open: seq<Walk>) {
    && (forall i, j :: 0 <= i < j < |found| ==> |found[i]| <= |found[j]|)
    && (forall i, j :: 0 <= i < j < |open| ==> |open[i]| <= |open[j]| <= |open[i]| + 1)
    && (forall i, j :: 0 <= i < |found| && 0 <= j < |open| ==> |found[i]| <= |open[j]| + 1)
  }

  lemma StepCovered(q: Query, found: seq<Walk>, open: seq<Walk>, f: seq<Walk>, o: seq<Walk>)
    requires open != [] && q.IsWalk(open[0]) && Covered(q, found, open)
    requires Children(q, open[0], OutIndices(q.edges, q.End(open[0])), f, o)
    ensures Covered(q, found + f, open[1..] + o)
  {
    hide Antichain, Query.IsWalk, Distinct;
    var w, rest := open[0], open[1..] + o;
    forall v | q.Answers(v) ensures v in found + f || exists c :: c in rest && c < v {
      if v !in found {
        var c :| c in open && c < v;
        if c == w {
          NextEdge(q, w, v);
          OutIsIndexed(q.edges, q.End(w));
          if v !in f {
            var d :| d in o && d < v;
            assert d in rest;
          }
        } else {
          assert c in open[1..] && c in rest;
        }
      }
    }
  }

  lemma StepLevelled(q: Query, found: seq<Walk>, open: seq<Walk>, tried: seq<nat>, f: seq<Walk>, o: seq<Walk>)
    requires open != [] && Levelled(found, open) && Children(q, open[0], tried, f, o)
    ensures Levelled(found + f, open[1..] + o)
  {
    hide Antichain, Query.IsWalk, Distinct, Query.Answers, Query.Open;
  }

  predicate ExtendOne(w: Walk, kids: seq<Walk>) {
    forall i :: 0 <= i < |kids| ==> |kids[i]| == |w| + 1 && w < kids[i]
  }

  lemma ChildrenExtend(q: Query, w: Walk, tried: seq<nat>, f: seq<Walk>, o: seq<Walk>)
    requires Children(q, w, tried, f, o)
    ensures ExtendOne(w, f + o) && Antichain(f + o)
  {
    hide Antichain, Query.IsWalk, Distinct, Query.Answers, Query.Open;
  }

  /** Replacing a walk by some of its one-edge extensions keeps a list free of prefixes. */
  lemma StepAntichain(found: seq<Walk>, open: seq<Walk>, f: seq<Walk>, o: seq<Walk>)
    requires open != [] && Antichain(found + open) && ExtendOne(open[0], f + o) && Antichain(f + o)
    ensures Antichain((found + f) + (open[1..] + o))
  {
    var a := (found + f) + (open[1..] + o);
    forall i, j | 0 <= i < |a| && 0 <= j < |a| && i != j ensures !(a[i] <= a[j]) {
      WhereFrom(found, open, f, o, i);
      WhereFrom(found, open, f, o, j);
      StepApart(found + open, |found|, f + o, OldIndex(found, open, f, i), NewIndex(found, open, f, i),
                OldIndex(found, open, f, j), NewIndex(found, open, f, j));
    }
  }

  lemma WhereFrom(found: seq<Walk>, open: seq<Walk>, f: seq<Walk>, o: seq<Walk>, i: nat)
    requires open != [] && i < |(found + f) + (open[1..] + o)|
    ensures var x, y, a := OldIndex(found, open, f, i), NewIndex(found, open, f, i), (found + f) + (open[1..] + o);
      && (x >= 0 ==> x < |found + open| && x != |found| && a[i] == (found + open)[x])
      && (x < 0 ==> 0 <= y < |f + o| && a[i] == (f + o)[y])
  {
  }

  /** Two elements of the new list, each an old one other than `before[k]` or one of its children. */
  lemma StepApart(before: seq<Walk>, k: nat, kids: seq<Walk>, x: int, x': int, y: int, y': int)
    requires k < |before| && Antichain(before) && Antichain(kids) && ExtendOne(before[k], kids)
    requires if x >= 0 then x < |before| && x != k else 0 <= x' < |kids|
    requires if y >= 0 then y < |before| && y != k else 0 <= y' < |kids|
    requires x >= 0 && y >= 0 ==> x != y
    requires x < 0 && y < 0 ==> x' != y'
    ensures !((if x >= 0 then before[x] else kids[x']) <= (if y >= 0 then before[y] else kids[y']))
  {
    if x < 0 && y >= 0 {
      ChildApart(before[k], kids[x'], before[y]);
    } else if x >= 0 && y < 0 {
      ChildApart(before[k], kids[y'], before[x]);
    }
  }

  /** Where an element of the new list was in the old one, -1 for a child. */
  function OldIndex(found: seq<Walk>, open: seq<Walk>, f: seq<Walk>, i: int): int {
    if i < |found| then i else if i < |found| + |f| then -1
    else if i < |found| + |f| + |open| - 1 then i - |f| + 1 else -1
  }

  function NewIndex(found: seq<Walk>, open: seq<Walk>, f: seq<Walk>, i: int): int {
    if i < |found| + |f| then i - |found| else i - |found| - |open| + 1
  }

  lemma ChildApart(w: Walk, c: Walk, x: Walk)
    requires |c| == |w| + 1 && w < c && !(w <= x) && !(x <= w)
    ensures !(c <= x) && !(x <= c)
  {
    assert c[..|w|] == w;
  }

  lemma SearchStep(q: Query, found: seq<Walk>, open: seq<Walk>, f: seq<Walk>, o: seq<Walk>)
    requires open != [] && q.IsWalk(open[0]) && Searching(q, found, open)
    requires Children(q, open[0], OutIndices(q.edges, q.End(open[0])), f, o)
    ensures Searching(q, found + f, open[1..] + o)
  {
    hide Query.IsWalk, Distinct, Query.Answers, Query.Open, Covered;
    StepCovered(q, found, open, f, o);
    StepLevelled(q, found, open, OutIndices(q.edges, q.End(open[0])), f, o);
    ChildrenExtend(q, open[0], OutIndices(q.edges, q.End(open[0])), f, o);
    StepAntichain(found, open, f, o);
    hide Levelled, Antichain;
  }

  // The search

  /** How many walks at the front of the queue have this length. */
  function Lead(open: seq<Walk>, d: nat): nat {
    if open != [] && |open[0]| == d then 1 + Lead(open[1..], d) else 0
  }

  lemma {:induction false} LeadAppend(open: seq<Walk>, more: seq<Walk>, d: nat)
    requires forall i :: 0 <= i < |more| ==> |more[i]| != d
    ensures Lead(open + more, d) == Lead(open, d)
    decreases |open|
  {
    if open == [] {
      assert open + more == more;
    } else {
      assert (open + more)[1..] == open[1..] + more;
      LeadAppend(open[1..], more, d);
    }
  }

  /** What a search with a result limit promises about the walks it reports. */
  ghost predicate Exact(q: Query, limit: int, walks: seq<Walk>) {
    && (forall i :: 0 <= i < |walks| ==> q.Answers(walks[i]))
    && Distinct(walks)
    && (forall i, j :: 0 <= i < j < |walks| ==> |walks[i]| <= |walks[j]|)
    && (|walks| < limit ==> forall v :: q.Answers(v) ==> v in walks)
    && (forall v, i :: q.Answers(v) && v !in walks && 0 <= i < |walks| ==> |walks[i]| <= |v|)
  }

  function Parent(w: Walk): Walk { if w == [] then [] else w[..|w| - 1] }

  /**
   The search stops once the limit is reached: what it returns beyond the limit are siblings of the
   walk that reached it.
   */
  predicate Capped(limit: int, walks: seq<Walk>) {
    && (limit <= 0 ==> walks == [])
    && forall i :: 0 < limit <= i < |walks| ==> Parent(walks[i]) == Parent(walks[limit - 1])
  }

  /** Siblings are found together. */
  ghost predicate Whole(q: Query, walks: seq<Walk>) {
    forall v, w :: q.Answers(v) && w in walks && Parent(v) == Parent(w) ==> v in walks
  }

  lemma NoneCapped(limit: int)
    ensures Capped(limit, [])
  {
  }

  lemma StepCapped(q: Query, limit: int, walks: seq<Walk>, w: Walk, tried: seq<nat>, f: seq<Walk>, o: seq<Walk>)
    requires |walks| < limit && Children(q, w, tried, f, o)
    ensures Capped(limit, walks + f)
  {
    forall i | 0 <= i < |f| ensures Parent(f[i]) == w {}
  }

  lemma SearchStarts(q: Query)
    ensures Searching(q, [], [[]]) && q.Open([])
  {
    var empty: Walk := [];
    assert q.Nodes(empty) == [q.source];
    forall v | q.Answers(v) ensures exists c :: c in [empty] && c < v {
      assert empty in [empty] && empty < v;
    }
  }

  /** With no room for even one edge there is nothing to find. */
  lemma NoRoom(q: Query, found: seq<Walk>, open: seq<Walk>)
    requires open != [] && Searching(q, found, open) && |open[0]| >= q.maxDepth
    ensures Searching(q, found, open[1..])
  {
    assert q.Open(open[0]) && open[0] == [];
    assert forall v :: !q.Answers(v);
    AntichainRoot(found + open, |found|);
  }

  /** The empty walk is a prefix of every other, so it can only be alone. */
  lemma AntichainRoot(ws: seq<Walk>, k: nat)
    requires Antichain(ws) && k < |ws| && ws[k] == []
    ensures |ws| == 1
  {
    RootOnly(ws, k, 0);
    RootOnly(ws, k, |ws| - 1);
  }

  lemma RootOnly(ws: seq<Walk>, k: nat, j: nat)
    requires Antichain(ws) && k < |ws| && j < |ws| && ws[k] == []
    ensures j == k
  {
    assert ws[k] <= ws[j];
  }

  /** A sibling of a found walk has no prefix left in the queue: that would be a prefix of the found walk too. */
  lemma FoundWhole(q: Query, found: seq<Walk>, open: seq<Walk>)
    requires Searching(q, found, open)
    ensures Whole(q, found)
  {
    hide Query.IsWalk, Distinct, Levelled;
    var all := found + open;
    forall v, w | q.Answers(v) && w in found && Parent(v) == Parent(w) ensures v in found {
      if v !in found {
        var c :| c in open && c < v;
        var i :| 0 <= i < |found| && found[i] == w;
        var j :| 0 <= j < |open| && open[j] == c;
        assert all[i] == w && all[|found| + j] == c;
        BelowParent(c, v, w);
      }
    }
  }

  lemma BelowParent(c: Walk, v: Walk, w: Walk)
    requires c < v && Parent(v) == Parent(w)
    ensures c <= w
  {
    assert c <= Parent(v);
    assert Parent(w) <= w;
  }

  lemma SearchEnds(q: Query, limit: int, found: seq<Walk>, open: seq<Walk>)
    requires Searching(q, found, open) && (open == [] || |found| >= limit)
    ensures Exact(q, limit, found) && Whole(q, found)
  {
    FoundWhole(q, found, open);
    var a := found + open;
    forall i, j | 0 <= i < j < |found| ensures found[i] != found[j] {
      assert a[i] == found[i] && a[j] == found[j] && !(a[i] <= a[j]);
    }
    forall v, i | q.Answers(v) && v !in found && 0 <= i < |found| ensures |found[i]| <= |v| {
      var c :| c in open && c < v;
      var j :| 0 <= j < |open| && open[j] == c;
    }
  }

  /** The results are the node paths and edge lists of walks found as promised. */
  ghost predicate Found(q: Query, limit: int, paths: seq<seq<string>>, chains: seq<seq<Edge>>) {
    exists walks ::
      Exact(q, limit, walks) && Capped(limit, walks) && Whole(q, walks) && Reports(q, walks, paths, chains)
  }

  method Search(q: Query, adj: map<string, seq<Edge>>, limit: int)
    returns (paths: seq<seq<string>>, chains: seq<seq<Edge>>)
    requires forall id :: Neighbours(adj, id) == Out(q.edges, id)
    ensures Found(q, limit, paths, chains)
  {
    ghost var walks: seq<Walk>;
    hide Searching, Capped, Whole, Parent, Children, Query.Answers, Query.IsWalk, Exact, Out, OutIndices, Distinct;
    paths, chains, walks := [], [], [];
    var queue := [Entry(q.source, [q.source], [], {q.source})];
    ghost var open: seq<Walk> := [[]];
    SearchStarts(q);
    FirstEntry(q);
    NoneCapped(limit);
    while |queue| > 0 && |paths| < limit
      invariant Searching(q, walks, open) && Reports(q, walks, paths, chains) && Capped(limit, walks)
      invariant Queued(q, queue, open)
      decreases if open == [] then 0 else Top(q) - |open[0]|, if open == [] then 0 else Lead(open, |open[0]|)
    {
      var e := queue[0];
      ghost var w := open[0];
      EntryFacts(q, e, w);
      LevelFacts(q, walks, open);
      queue := queue[1..];
      if |e.path| - 1 >= q.maxDepth {
        NoRoom(q, walks, open);
        RoundShrinks(q, open, []);
        assert open[1..] + [] == open[1..];
        open := open[1..];
        continue;
      }
      var newPaths, newChains, newEntries, f, o := Expand(q, e, Neighbours(adj, e.node), w);
      SearchStep(q, walks, open, f, o);
      StepCapped(q, limit, walks, w, OutIndices(q.edges, e.node), f, o);
      ChildFacts(q, w, OutIndices(q.edges, e.node), f, o);
      RoundShrinks(q, open, o);
      ReportsAppend(q, walks, paths, chains, f, newPaths, newChains);
      paths, chains, queue := paths + newPaths, chains + newChains, queue + newEntries;
      walks, open := walks + f, open[1..] + o;
    }
    SearchEnds(q, limit, walks, open);
  }

  /** One more than the greatest length a waiting walk can have. */
  function Top(q: Query): nat { if q.maxDepth > 0 then q.maxDepth else 1 }

  lemma FirstEntry(q: Query)
    ensures EntryOk(q, Entry(q.source, [q.source], [], {q.source}), [])
  {
    assert q.Nodes([]) == [q.source];
  }

  lemma EntryFacts(q: Query, e: Entry, w: Walk)
    requires EntryOk(q, e, w)
    ensures q.IsWalk(w) && e.node == q.End(w) && |e.path| == |w| + 1 && |w| < Top(q)
  {
  }

  lemma LevelFacts(q: Query, found: seq<Walk>, open: seq<Walk>)
    requires Searching(q, found, open)
    ensures forall i, j :: 0 <= i < j < |open| ==> |open[i]| <= |open[j]| <= |open[i]| + 1
  {
  }

  lemma ChildFacts(q: Query, w: Walk, tried: seq<nat>, found: seq<Walk>, open: seq<Walk>)
    requires Children(q, w, tried, found, open)
    ensures forall i :: 0 <= i < |open| ==> |open[i]| == |w| + 1
  {
  }

  /** Taking the first walk off the queue makes progress: fewer at its length, or a longer one in front. */
  lemma RoundShrinks(q: Query, open: seq<Walk>, more: seq<Walk>)
    requires open != [] && forall i, j :: 0 <= i < j < |open| ==> |open[i]| <= |open[j]| <= |open[i]| + 1
    requires forall i :: 0 <= i < |more| ==> |more[i]| == |open[0]| + 1
    ensures var next := open[1..] + more;
      next != [] ==> |next[0]| > |open[0]| || (|next[0]| == |open[0]| && Lead(next, |next[0]|) < Lead(open, |open[0]|))
  {
    var next := open[1..] + more;
    if next != [] && |next[0]| == |open[0]| {
      LeadAppend(open[1..], more, |open[0]|);
    }
  }

  // Answers and routes

  function IndexOf(edges: seq<Edge>, e: Edge): (i: nat)
    requires e in edges
    ensures i < |edges| && edges[i] == e
  {
    if edges[0] == e then 0 else 1 + IndexOf(edges[1..], e)
  }

  lemma AnswerIsRoute(q: Query, w: Walk)
    requires q.Answers(w)
    ensures q.Route(q.Nodes(w), q.EdgesOf(w))
  {
    var path, route := q.Nodes(w), q.EdgesOf(w);
    forall i | 0 <= i < |w| ensures
      route[i] in q.edges && route[i].rel in q.allow && route[i].from == path[i] && route[i].to == path[i + 1]
    {
      assert q.Follows(w, i);
    }
  }

  lemma RouteIsAnswer(q: Query, path: seq<string>, route: seq<Edge>) returns (w: Walk)
    requires q.Route(path, route)
    ensures q.Answers(w) && path == q.Nodes(w) && route == q.EdgesOf(w)
  {
    w := seq(|route|, i requires 0 <= i < |route| => IndexOf(q.edges, route[i]));
    forall i | 0 <= i < |w| ensures w[i] < |q.edges| && q.edges[w[i]] == route[i] {}
    forall i | 0 <= i < |w| ensures q.Follows(w, i) {
      assert route[i].from == path[i];
      if i > 0 { assert route[i - 1].to == path[i]; }
    }
    assert q.Nodes(w) == path;
    assert q.EdgesOf(w) == route;
  }

  /** Walks are the routes, told apart where the same edge is stored twice. */
  lemma AnswersAreRoutes(q: Query, path: seq<string>, route: seq<Edge>)
    ensures q.Route(path, route) <==> exists w :: q.Answers(w) && path == q.Nodes(w) && route == q.EdgesOf(w)
  {
    if q.Route(path, route) {
      var w := RouteIsAnswer(q, path, route);
    }
    forall w | q.Answers(w) && path == q.Nodes(w) && route == q.EdgesOf(w) ensures q.Route(path, route) {
      AnswerIsRoute(q, w);
    }
  }

  /** Without edges stored twice, different walks have different edge lists. */
  lemma EdgesTellApart(q: Query, v: Walk, w: Walk)
    requires NoDuplicateEdges(q.edges) && q.IsWalk(v) && q.IsWalk(w) && q.EdgesOf(v) == q.EdgesOf(w)
    ensures v == w
  {
    assert |q.EdgesOf(v)| == |v| && |q.EdgesOf(w)| == |w|;
    forall i | 0 <= i < |v| ensures v[i] == w[i] {
      assert q.EdgesOf(v)[i] == q.EdgesOf(w)[i];
      assert SameEdge(q.edges[v[i]], q.edges[w[i]]);
    }
  }

  // findPaths

  lemma EveryRelationship(r: Relationship)
    ensures r in EVERY
  {
  }

  /** What findPaths promises, said of routes instead of walks. */
  ghost predicate ShortestRoutes(q: Query, limit: int, paths: seq<seq<string>>) {
    && (forall path :: path in paths ==> HasRoute(q, path))
    && (forall i, j :: 0 <= i < j < |paths| ==> |paths[i]| <= |paths[j]|)
    && (|paths| < limit ==> forall path :: HasRoute(q, path) ==> path in paths)
    && (forall path, i :: HasRoute(q, path) && path !in paths && 0 <= i < |paths| ==> |paths[i]| <= |path|)
  }

  ghost predicate HasRoute(q: Query, path: seq<string>) { exists route :: q.Route(path, route) }

  lemma NodesLength(q: Query, w: Walk)
    requires q.IsWalk(w)
    ensures |q.Nodes(w)| == |w| + 1
  {
  }

  lemma RouteHasWalk(q: Query, path: seq<string>) returns (w: Walk)
    requires HasRoute(q, path)
    ensures q.Answers(w) && path == q.Nodes(w)
  {
    var route :| q.Route(path, route);
    w := RouteIsAnswer(q, path, route);
  }

  lemma FoundRoutes(q: Query, limit: int, paths: seq<seq<string>>, chains: seq<seq<Edge>>)
    requires Found(q, limit, paths, chains)
    ensures ShortestRoutes(q, limit, paths)
  {
    hide Exact, Capped, Whole, Reports;
    var walks :|
      Exact(q, limit, walks) && Capped(limit, walks) && Whole(q, walks) && Reports(q, walks, paths, chains);
    WalksAreRoutes(q, limit, walks, paths, chains);
  }

  lemma WalksAreRoutes(q: Query, limit: int, walks: seq<Walk>, paths: seq<seq<string>>, chains: seq<seq<Edge>>)
    requires Exact(q, limit, walks) && Reports(q, walks, paths, chains)
    ensures ShortestRoutes(q, limit, paths)
  {
    hide Query.Route, Query.IsWalk, Distinct, Query.Nodes, Query.EdgesOf, Query.Answers, HasRoute;
    forall i | 0 <= i < |walks| ensures |paths[i]| == |walks[i]| + 1 && HasRoute(q, paths[i]) {
      WalkIsRoute(q, walks[i]);
    }
    forall path | HasRoute(q, path) && path !in paths
      ensures |paths| >= limit && forall i :: 0 <= i < |paths| ==> |paths[i]| <= |path|
    {
      var w := RouteHasWalk(q, path);
      WalkIsRoute(q, w);
      UnreportedWalk(walks, paths, chains, q, w, path);
    }
  }

  lemma WalkIsRoute(q: Query, w: Walk)
    requires q.Answers(w)
    ensures |q.Nodes(w)| == |w| + 1 && HasRoute(q, q.Nodes(w))
  {
    hide Query.Route;
    NodesLength(q, w);
    AnswerIsRoute(q, w);
  }

  lemma UnreportedWalk(walks: seq<Walk>, paths: seq<seq<string>>, chains: seq<seq<Edge>>, q: Query, w: Walk,
                       path: seq<string>)
    requires Reports(q, walks, paths, chains) && q.Answers(w) && path == q.Nodes(w) && path !in paths
    ensures w !in walks
  {
    hide Query.Answers, Query.IsWalk, Query.Nodes, Query.EdgesOf;
    forall i | 0 <= i < |walks| ensures walks[i] != w { assert paths[i] in paths; }
  }

  /** Up to twenty simple paths from source to target, shortest first; parallel edges count separately. */
  method FindPaths(g: Graph, source: string, target: string, maxDepth: int) returns (paths: seq<seq<string>>)
    ensures exists chains :: Found(Query(g.edges, EVERY, source, target, maxDepth), 20, paths, chains)
    ensures ShortestRoutes(Query(g.edges, EVERY, source, target, maxDepth), 20, paths)
    ensures |paths| < 20 ==> forall path, route ::
      Query(g.edges, EVERY, source, target, maxDepth).Joins(path, route) ==> path in paths
  {
    hide Found;
    var adj := g.Adjacency();
    var q := Query(g.edges, EVERY, source, target, maxDepth);
    var chains;
    paths, chains := Search(q, adj, 20);
    FoundRoutes(q, 20, paths, chains);
    forall path, route: seq<Edge> | q.Joins(path, route) ensures q.Route(path, route) && HasRoute(q, path) {
      forall i | 0 <= i < |route| ensures route[i].rel in q.allow { EveryRelationship(route[i].rel); }
    }
  }

  // More than twenty

  /** The fifteen relationships, numbered. */
  function Numbered(i: nat): Relationship {
    match i
    case 0 => Owns
    case 1 => Accesses
    case 2 => Calls
    case 3 => Trusts
    case 4 => BelongsTo
    case 5 => Authenticates
    case 6 => Authorizes
    case 7 => Reads
    case 8 => Writes
    case 9 => DependsOn
    case 10 => FlowsTo
    case 11 => Exposes
    case 12 => Requires
    case 13 => Enables
    case _ => CombinesWith
  }

  lemma NumberedApart(i: nat, j: nat)
    requires i < j < 15
    ensures Numbered(i) != Numbered(j)
  {
  }

  /** Fifteen edges from a to b, one from a to c, fifteen from c to b. */
  function FanEdge(i: nat): Edge {
    if i < 15 then Edge("a", "b", Numbered(i), "")
    else if i == 15 then Edge("a", "c", Owns, "")
    else Edge("c", "b", Numbered(i - 16), "")
  }

  function Fan(): Query { Query(seq(31, i requires 0 <= i < 31 => FanEdge(i)), EVERY, "a", "b", 8) }

  function FanWalk(k: nat): Walk { if k < 15 then [k] else [15, k + 1] }

  lemma FanAnswers(k: nat)
    requires k < 30
    ensures Fan().Answers(FanWalk(k))
  {
    var q, w := Fan(), FanWalk(k);
    forall i | 0 <= i < |w| ensures w[i] < 31 && q.edges[w[i]] == FanEdge(w[i]) && q.edges[w[i]].rel in q.allow {
      EveryRelationship(q.edges[w[i]].rel);
    }
    assert q.InRange(w);
    forall i | 0 <= i < |w| ensures q.Follows(w, i) {}
    assert q.Nodes(w) == if k < 15 then ["a", "b"] else ["a", "c", "b"];
  }

  /** The graph could have been built edge by edge. */
  lemma FanHasNoDuplicates()
    ensures NoDuplicateEdges(Fan().edges)
  {
    var edges := Fan().edges;
    forall i, j | 0 <= i < j < 31 ensures !SameEdge(edges[i], edges[j]) {
      assert edges[i] == FanEdge(i) && edges[j] == FanEdge(j);
      if j < 15 { NumberedApart(i, j); }
      if i > 15 { NumberedApart(i - 16, j - 16); }
    }
  }

  lemma {:induction false} SetOfDistinct<T>(s: seq<T>)
    requires Distinct(s)
    ensures |set x | x in s| == |s|
  {
    if s == [] {
    } else {
      var n, last := |s| - 1, s[|s| - 1];
      assert Distinct(s[..n]);
      SetOfDistinct(s[..n]);
      assert s == s[..n] + [last] && last !in s[..n];
      assert (set x | x in s) == (set x | x in s[..n]) + {last};
    }
  }

  lemma {:induction false} SetOfSeq<T>(s: seq<T>)
    ensures |set x | x in s| <= |s|
  {
    if s == [] {
    } else {
      var n, last := |s| - 1, s[|s| - 1];
      SetOfSeq(s[..n]);
      assert s == s[..n] + [last];
      assert (set x | x in s) == (set x | x in s[..n]) + {last};
    }
  }

  lemma {:induction false} SubsetSize<T>(a: set<T>, b: set<T>)
    requires a <= b
    ensures |a| <= |b|
  {
    if a == {} {
    } else {
      var x :| x in a;
      SubsetSize(a - {x}, b - {x});
    }
  }

  /** Every one of the thirty walks is found, since one with two hops is and none with one may be missing. */
  lemma FanFound(walks: seq<Walk>, k: nat)
    requires Exact(Fan(), 20, walks) && Whole(Fan(), walks) && k < 30
    ensures FanWalk(k) in walks
  {
    hide Query.Answers, Fan;
    FanAnswers(k);
    var i := LongWalk(walks);
    FanAnswers(i);
    assert Parent(FanWalk(i)) == [15];
    if k >= 15 {
      assert Parent(FanWalk(k)) == [15];
    } else {
      var x :| 0 <= x < |walks| && walks[x] == FanWalk(i);
      assert |walks[x]| == 2 && |FanWalk(k)| == 1;
    }
  }

  /** Twenty results cannot all have one hop. */
  lemma LongWalk(walks: seq<Walk>) returns (i: nat)
    requires Exact(Fan(), 20, walks)
    ensures 15 <= i < 30 && FanWalk(i) in walks
  {
    hide Query.Answers;
    if |walks| < 20 {
      i := 15;
      FanAnswers(15);
    } else {
      var short := seq(15, k requires 0 <= k < 15 => FanWalk(k));
      var all, few := set x | x in walks, set x | x in short;
      SetOfDistinct(walks);
      SetOfSeq(short);
      if all <= few { SubsetSize(all, few); }
      var w :| w in walks && w !in short;
      i := TwoHops(w, short);
    }
  }

  lemma TwoHops(w: Walk, short: seq<Walk>) returns (i: nat)
    requires Fan().Answers(w) && |short| == 15 && (forall k :: 0 <= k < 15 ==> short[k] == FanWalk(k)) && w !in short
    ensures 15 <= i < 30 && w == FanWalk(i)
  {
    var q := Fan();
    assert q.Follows(w, 0);
    assert q.edges[w[0]] == FanEdge(w[0]);
    if w[0] < 15 { ShortFan(w, short); }
    assert w[0] == 15;
    assert |w| > 1;
    assert q.Follows(w, 1) && q.edges[w[1]] == FanEdge(w[1]);
    LongFan(w);
    i := w[1] - 1;
  }

  /** A walk that has come to b is over. */
  lemma ShortFan(w: Walk, short: seq<Walk>)
    requires Fan().Answers(w) && w[0] < 15 && |short| == 15 && forall k :: 0 <= k < 15 ==> short[k] == FanWalk(k)
    ensures w in short
  {
    var q := Fan();
    assert q.Nodes(w)[1] == "b" && q.Nodes(w)[|w|] == "b";
    assert short[w[0]] == w;
  }

  lemma LongFan(w: Walk)
    requires Fan().Answers(w) && w[0] == 15 && |w| > 1 && 16 <= w[1]
    ensures w == [15, w[1]]
  {
    var q := Fan();
    assert q.Nodes(w)[2] == q.edges[w[1]].to == "b" && q.Nodes(w)[|w|] == "b";
  }

  /** On this graph a search limited to twenty returns thirty results. */
  lemma MoreThanTwenty(paths: seq<seq<string>>, chains: seq<seq<Edge>>)
    requires Found(Fan(), 20, paths, chains)
    ensures |paths| >= 30 && NoDuplicateEdges(Fan().edges)
  {
    FanHasNoDuplicates();
    hide NoDuplicateEdges, Fan, Exact, Whole, Capped;
    var walks :| Exact(Fan(), 20, walks) && Capped(20, walks) && Whole(Fan(), walks)
                 && Reports(Fan(), walks, paths, chains);
    var all := seq(30, k requires 0 <= k < 30 => FanWalk(k));
    forall i, j | 0 <= i < j < 30 ensures all[i] != all[j] {
      assert all[i] == FanWalk(i) && all[j] == FanWalk(j);
    }
    forall x | x in all ensures x in walks {
      var k :| 0 <= k < 30 && all[k] == x;
      FanFound(walks, k);
    }
    SetOfDistinct(all);
    SetOfSeq(walks);
    SubsetSize(set x | x in all, set x | x in walks);
  }
}
