/**
 Attack chains: every bounded path from a low-privilege node to a high-impact one,
 scored and ranked (profiles/reference/sec/extensions/security-graph.ts:70-101, 205-266).
 */
module AttackChains {
  import opened Basics
  import opened SecurityGraph
  import opened PathSearch

  datatype Chain = Chain(path: seq<string>, edges: seq<Edge>, start: Node, end: Node, score: int) {
    function Hops(): int { |edges| }
    function Gap(): int { Privilege(end.kind) - Privilege(start.kind) }
  }

  const LIMIT := 50

  predicate Low(n: Node) { Privilege(n.kind) <= 2 }

  predicate High(n: Node) { Privilege(n.kind) >= 4 }

  function Score(gap: int, hops: int): int {
    var s := gap * 10 - hops;
    if s > 1 then s else 1
  }

  function Between(edges: seq<Edge>, maxDepth: int, start: Node, end: Node): Query {
    Query(edges, ESCALATION + ACCESS, start.id, end.id, maxDepth)
  }

  /** The relationships that escalate, give access or trust. */
  const CHAINED: set<Relationship> :=
    {Accesses, Authenticates, Authorizes, FlowsTo, Enables, CombinesWith, Trusts, Reads, Writes, Calls}

  /** The privilege levels, one by one. */
  lemma PrivilegeLevels(kind: NodeType)
    ensures Privilege(kind) == 0 <==> kind in {TrustBoundary, Finding, Hypothesis}
    ensures Privilege(kind) == 1 <==> kind in {Domain, Subdomain, Org}
    ensures Privilege(kind) == 2 <==> kind in {Host, Queue}
    ensures Privilege(kind) == 3 <==> kind in {Database, Service, Endpoint, Api, Workflow}
    ensures Privilege(kind) == 4 <==> kind in {Permission, Role, User}
    ensures Privilege(kind) == 5 <==> kind in {Identity, Credential, Token}
  {
  }

  /** What the search follows and where it starts and ends. */
  lemma CandidatesAre(edges: seq<Edge>, maxDepth: int, start: Node, end: Node)
    ensures Low(start) <==> start.kind in {TrustBoundary, Finding, Hypothesis, Domain, Subdomain, Org, Host, Queue}
    ensures High(end) <==> end.kind in {Permission, Role, User, Identity, Credential, Token}
    ensures Between(edges, maxDepth, start, end) == Query(edges, CHAINED, start.id, end.id, maxDepth)
  {
    assert ESCALATION + ACCESS == CHAINED;
  }

  /** The specification of a chain. */
  predicate IsChain(nodes: seq<Node>, edges: seq<Edge>, maxDepth: int, c: Chain) {
    && c.start in nodes && c.end in nodes
    && c.start.kind in {TrustBoundary, Finding, Hypothesis, Domain, Subdomain, Org, Host, Queue}
    && c.end.kind in {Permission, Role, User, Identity, Credential, Token}
    && Query(edges, CHAINED, c.start.id, c.end.id, maxDepth).Route(c.path, c.edges)
    && c.score == (if 10 * c.Gap() > c.Hops() then 10 * c.Gap() - c.Hops() else 1)
  }

  function ChainOf(edges: seq<Edge>, maxDepth: int, start: Node, end: Node, w: Walk): Chain
    requires Between(edges, maxDepth, start, end).IsWalk(w)
  {
    var q := Between(edges, maxDepth, start, end);
    Chain(q.Nodes(w), q.EdgesOf(w), start, end, Score(Privilege(end.kind) - Privilege(start.kind), |w|))
  }

  function Filter(nodes: seq<Node>, keep: Node -> bool): seq<Node> {
    if nodes == [] then []
    else (if keep(nodes[0]) then [nodes[0]] else []) + Filter(nodes[1..], keep)
  }

  lemma {:induction false} FilterExact(nodes: seq<Node>, keep: Node -> bool)
    ensures forall n :: n in Filter(nodes, keep) <==> n in nodes && keep(n)
    ensures UniqueIds(nodes) ==> UniqueIds(Filter(nodes, keep))
  {
    if nodes == [] {
    } else {
      FilterExact(nodes[1..], keep);
      assert nodes == [nodes[0]] + nodes[1..];
      if UniqueIds(nodes) {
        assert forall i :: 0 <= i < |nodes| - 1 ==> nodes[1..][i].id == nodes[i + 1].id != nodes[0].id;
        assert forall n :: n in nodes[1..] ==> n.id != nodes[0].id;
      }
    }
  }

  // Collecting

  /** A chain by the positions of its ends among the candidates and its walk. */
  datatype Key = Key(start: nat, end: nat, walk: Walk)

  predicate Before(k: Key, i: int, j: int) { k.start < i || (k.start == i && k.end < j) }

  datatype Candidates = Candidates(low: seq<Node>, high: seq<Node>, edges: seq<Edge>, maxDepth: int) {

    predicate Valid(k: Key) {
      && k.start < |low| && k.end < |high| && low[k.start].id != high[k.end].id
      && Between(edges, maxDepth, low[k.start], high[k.end]).Answers(k.walk)
    }

    function Make(k: Key): Chain
      requires Valid(k)
    {
      ChainOf(edges, maxDepth, low[k.start], high[k.end], k.walk)
    }

    ghost predicate Makes(keys: seq<Key>, chains: seq<Chain>) {
      |keys| == |chains| && forall i :: 0 <= i < |keys| ==> Valid(keys[i]) && chains[i] == Make(keys[i])
    }

    /** All pairs before (i, j) have been searched, in order, until the limit; what is left out comes no earlier. */
    ghost predicate Collected(keys: seq<Key>, i: int, j: int) {
      && (forall x :: 0 <= x < |keys| ==> Before(keys[x], i, j))
      && Distinct(keys) && InOrder(keys)
      && (|keys| < LIMIT ==> forall k :: Valid(k) && Before(k, i, j) ==> k in keys)
      && (forall k, x :: Valid(k) && Before(k, i, j) && k !in keys && 0 <= x < |keys| ==> NoLater(keys[x], k))
    }
  }

  /** By start, then by end, then by number of hops. */
  predicate NoLater(k: Key, l: Key) {
    Before(k, l.start, l.end) || (k.start == l.start && k.end == l.end && |k.walk| <= |l.walk|)
  }

  predicate InOrder(keys: seq<Key>) {
    forall x, y :: 0 <= x < y < |keys| ==> NoLater(keys[x], keys[y])
  }

  /** Beyond the limit there are only siblings of the chain that reached it. */
  predicate Cut(keys: seq<Key>) {
    forall x :: LIMIT <= x < |keys| ==>
      keys[x].start == keys[LIMIT - 1].start && keys[x].end == keys[LIMIT - 1].end
      && Parent(keys[x].walk) == Parent(keys[LIMIT - 1].walk)
  }

  function KeysOf(i: nat, j: nat, walks: seq<Walk>): seq<Key> {
    seq(|walks|, x requires 0 <= x < |walks| => Key(i, j, walks[x]))
  }

  lemma PairSkipped(t: Candidates, keys: seq<Key>, i: nat, j: nat)
    requires i < |t.low| && j < |t.high| && t.low[i].id == t.high[j].id && t.Collected(keys, i, j)
    ensures t.Collected(keys, i, j + 1)
  {
  }

  lemma PairSearched(t: Candidates, keys: seq<Key>, i: nat, j: nat, walks: seq<Walk>)
    requires i < |t.low| && j < |t.high| && t.low[i].id != t.high[j].id
    requires t.Collected(keys, i, j) && Cut(keys)
    requires Exact(Between(t.edges, t.maxDepth, t.low[i], t.high[j]), LIMIT - |keys|, walks)
    requires Capped(LIMIT - |keys|, walks)
    ensures t.Collected(keys + KeysOf(i, j, walks), i, j + 1) && Cut(keys + KeysOf(i, j, walks))
  {
    hide Query.Answers, Query.IsWalk, InOrder, Distinct, Cut, Capped, Parent;
    PairDistinct(keys, i, j, walks);
    PairInOrder(keys, i, j, walks);
    PairCut(keys, i, j, walks);
    var all := keys + KeysOf(i, j, walks);
    if |all| < LIMIT {
      forall k | t.Valid(k) && Before(k, i, j + 1) ensures k in all {
        if !Before(k, i, j) {
          assert k.walk in walks;
          var x :| 0 <= x < |walks| && walks[x] == k.walk;
          assert all[|keys| + x] == k;
        }
      }
    }
    if |keys| >= LIMIT { NoneBeyond(LIMIT - |keys|, walks); }
    forall k, x | t.Valid(k) && Before(k, i, j + 1) && k !in all && 0 <= x < |all| ensures NoLater(all[x], k) {
      OmittedLater(t, keys, i, j, walks, k, x);
    }
  }

  lemma NoneBeyond(limit: int, walks: seq<Walk>)
    requires limit <= 0 && Capped(limit, walks)
    ensures walks == []
  {
  }

  /** A chain left out comes no earlier than any that was found. */
  lemma OmittedLater(t: Candidates, keys: seq<Key>, i: nat, j: nat, walks: seq<Walk>, k: Key, x: nat)
    requires i < |t.low| && j < |t.high| && t.Collected(keys, i, j) && (|keys| >= LIMIT ==> walks == [])
    requires Exact(Between(t.edges, t.maxDepth, t.low[i], t.high[j]), LIMIT - |keys|, walks)
    requires t.Valid(k) && Before(k, i, j + 1) && k !in keys + KeysOf(i, j, walks) && x < |keys + KeysOf(i, j, walks)|
    ensures NoLater((keys + KeysOf(i, j, walks))[x], k)
  {
    hide Query.Answers, Query.IsWalk, InOrder, Distinct;
    var all := keys + KeysOf(i, j, walks);
    if Before(k, i, j) {
      assert all == keys;
    } else if x >= |keys| {
      forall y | 0 <= y < |walks| ensures walks[y] != k.walk { assert all[|keys| + y] in all; }
      assert all[x].walk == walks[x - |keys|];
    }
  }

  lemma PairDistinct(keys: seq<Key>, i: nat, j: nat, walks: seq<Walk>)
    requires Distinct(keys) && Distinct(walks) && forall x :: 0 <= x < |keys| ==> Before(keys[x], i, j)
    ensures Distinct(keys + KeysOf(i, j, walks))
  {
  }

  lemma PairInOrder(keys: seq<Key>, i: nat, j: nat, walks: seq<Walk>)
    requires InOrder(keys) && forall x :: 0 <= x < |keys| ==> Before(keys[x], i, j)
    requires forall x, y :: 0 <= x < y < |walks| ==> |walks[x]| <= |walks[y]|
    ensures InOrder(keys + KeysOf(i, j, walks))
  {
  }

  lemma PairCut(keys: seq<Key>, i: nat, j: nat, walks: seq<Walk>)
    requires Cut(keys) && Capped(LIMIT - |keys|, walks)
    ensures Cut(keys + KeysOf(i, j, walks))
  {
    hide Parent;
    if |keys| >= LIMIT { assert keys + KeysOf(i, j, walks) == keys; }
  }

  lemma RowDone(t: Candidates, keys: seq<Key>, i: nat)
    requires t.Collected(keys, i, |t.high|)
    ensures t.Collected(keys, i + 1, 0)
  {
  }

  function Built(start: Node, end: Node, paths: seq<seq<string>>, chains: seq<seq<Edge>>): seq<Chain>
    requires |paths| == |chains|
  {
    seq(|paths|, x requires 0 <= x < |paths| =>
      Chain(paths[x], chains[x], start, end, Score(Privilege(end.kind) - Privilege(start.kind), |paths[x]| - 1)))
  }

  lemma MakesMore(t: Candidates, keys: seq<Key>, chains: seq<Chain>, i: nat, j: nat, walks: seq<Walk>,
                  paths: seq<seq<string>>, lists: seq<seq<Edge>>)
    requires i < |t.low| && j < |t.high| && t.low[i].id != t.high[j].id && t.Makes(keys, chains)
    requires Reports(Between(t.edges, t.maxDepth, t.low[i], t.high[j]), walks, paths, lists)
    ensures t.Makes(keys + KeysOf(i, j, walks), chains + Built(t.low[i], t.high[j], paths, lists))
  {
    var ks, cs := keys + KeysOf(i, j, walks), chains + Built(t.low[i], t.high[j], paths, lists);
    forall x | 0 <= x < |ks| ensures t.Valid(ks[x]) && cs[x] == t.Make(ks[x]) {
      if x >= |keys| { assert ks[x] == Key(i, j, walks[x - |keys|]); }
    }
  }

  /** What the chains are a ranking of: `keys` lists them in the order they were found. */
  ghost predicate Complete(nodes: seq<Node>, edges: seq<Edge>, maxDepth: int, keys: seq<Key>, found: seq<Chain>) {
    var t := Candidates(Filter(nodes, Low), Filter(nodes, High), edges, maxDepth);
    t.Makes(keys, found) && t.Collected(keys, |t.low|, 0) && Cut(keys)
  }

  /** What a list of chains is the ranking of. */
  ghost predicate Ranks(nodes: seq<Node>, edges: seq<Edge>, maxDepth: int, chains: seq<Chain>) {
    exists keys, found :: Complete(nodes, edges, maxDepth, keys, found) && StableSort(found, chains)
  }

  method FindAttackChains(g: Graph, maxDepth: int) returns (chains: seq<Chain>)
    ensures Ranks(g.nodes, g.edges, maxDepth, chains) && Descending(chains)
    ensures forall c :: c in chains ==> IsChain(g.nodes, g.edges, maxDepth, c)
    ensures |chains| < 50 ==> forall c :: IsChain(g.nodes, g.edges, maxDepth, c) ==> c in chains
    ensures UniqueIds(g.nodes) && NoDuplicateEdges(g.edges) ==> Distinct(chains)
    ensures maxDepth <= 10 ==> forall i, j :: 0 <= i < j < |chains| ==> !Better(chains[j], chains[i])
  {
    ghost var keys;
    chains, keys := CollectChains(g, maxDepth);
    ghost var found := chains;
    chains := Ranked(chains);
    RankedIsStable(found);
    RankingFacts(g.nodes, g.edges, maxDepth, keys, found, chains);
  }

  lemma RankingFacts(nodes: seq<Node>, edges: seq<Edge>, maxDepth: int, keys: seq<Key>, found: seq<Chain>,
                     chains: seq<Chain>)
    requires Complete(nodes, edges, maxDepth, keys, found) && StableSort(found, chains)
    ensures Ranks(nodes, edges, maxDepth, chains) && Descending(chains)
    ensures forall c :: c in chains ==> IsChain(nodes, edges, maxDepth, c)
    ensures |chains| < LIMIT ==> forall c :: IsChain(nodes, edges, maxDepth, c) ==> c in chains
    ensures UniqueIds(nodes) && NoDuplicateEdges(edges) ==> Distinct(chains)
    ensures maxDepth <= 10 ==> forall i, j :: 0 <= i < j < |chains| ==> !Better(chains[j], chains[i])
  {
    hide Complete, IsChain, Better, UniqueIds, NoDuplicateEdges, Distinct;
    forall c ensures c in chains ==> IsChain(nodes, edges, maxDepth, c)
             ensures |chains| < LIMIT && IsChain(nodes, edges, maxDepth, c) ==> c in chains
    {
      SoundAndComplete(nodes, edges, maxDepth, keys, found, chains, c);
    }
    if UniqueIds(nodes) && NoDuplicateEdges(edges) { NoChainTwice(nodes, edges, maxDepth, keys, found, chains); }
    if maxDepth <= 10 {
      forall i, j | 0 <= i < j < |chains| ensures !Better(chains[j], chains[i]) {
        BestFirst(nodes, edges, maxDepth, keys, found, chains, i, j);
      }
    }
  }

  /** The two loops over start and end nodes. */
  method CollectChains(g: Graph, maxDepth: int) returns (chains: seq<Chain>, ghost keys: seq<Key>)
    ensures Complete(g.nodes, g.edges, maxDepth, keys, chains)
  {
    hide Exact, Reports, Capped, Candidates.Makes, Candidates.Collected, Filter, Cut, Out, SecurityGraph.Neighbours,
      Built, KeysOf;
    var adj := g.Adjacency();
    var t := Candidates(Filter(g.nodes, Low), Filter(g.nodes, High), g.edges, maxDepth);
    chains, keys := [], [];
    NothingYet(t);
    for i := 0 to |t.low|
      invariant t.Makes(keys, chains) && t.Collected(keys, i, 0) && Cut(keys)
    {
      for j := 0 to |t.high|
        invariant t.Makes(keys, chains) && t.Collected(keys, i, j) && Cut(keys)
      {
        var start, end := t.low[i], t.high[j];
        if start.id == end.id {
          PairSkipped(t, keys, i, j);
          continue;
        }
        MakesSize(t, keys, chains);
        var q := Between(g.edges, maxDepth, start, end);
        var paths, lists := Search(q, adj, LIMIT - |chains|);
        ghost var walks :|
          Exact(q, LIMIT - |chains|, walks) && Capped(LIMIT - |chains|, walks) && Reports(q, walks, paths, lists);
        ReportsSize(q, walks, paths, lists);
        MakesMore(t, keys, chains, i, j, walks, paths, lists);
        PairSearched(t, keys, i, j, walks);
        chains, keys := chains + Built(start, end, paths, lists), keys + KeysOf(i, j, walks);
      }
      RowDone(t, keys, i);
    }
  }

  lemma NothingYet(t: Candidates)
    ensures t.Makes([], []) && t.Collected([], 0, 0) && Cut([])
  {
  }

  lemma MakesSize(t: Candidates, keys: seq<Key>, chains: seq<Chain>)
    requires t.Makes(keys, chains)
    ensures |keys| == |chains|
  {
  }

  lemma ReportsSize(q: Query, walks: seq<Walk>, paths: seq<seq<string>>, lists: seq<seq<Edge>>)
    requires Reports(q, walks, paths, lists)
    ensures |paths| == |lists|
  {
  }

  // Ranking

  function OfScore(chains: seq<Chain>, score: int): seq<Chain> {
    if chains == [] then []
    else (if chains[0].score == score then [chains[0]] else []) + OfScore(chains[1..], score)
  }

  predicate Descending(chains: seq<Chain>) {
    forall i, j :: 0 <= i < j < |chains| ==> chains[i].score >= chains[j].score
  }

  /** Highest score first, chains of one score in their old order. */
  ghost predicate StableSort(before: seq<Chain>, after: seq<Chain>) {
    Descending(after) && forall s :: OfScore(after, s) == OfScore(before, s)
  }

  function Insert(c: Chain, ranked: seq<Chain>): seq<Chain> {
    if ranked == [] || c.score >= ranked[0].score then [c] + ranked
    else [ranked[0]] + Insert(c, ranked[1..])
  }

  function Ranked(chains: seq<Chain>): seq<Chain> {
    if chains == [] then [] else Insert(chains[0], Ranked(chains[1..]))
  }

  lemma {:induction false} InsertSorted(c: Chain, ranked: seq<Chain>)
    requires Descending(ranked)
    ensures Descending(Insert(c, ranked))
    ensures forall i :: 0 <= i < |Insert(c, ranked)| ==> Insert(c, ranked)[i] == c || Insert(c, ranked)[i] in ranked
  {
    if ranked != [] && c.score < ranked[0].score {
      InsertSorted(c, ranked[1..]);
      assert forall x :: x in ranked[1..] ==> x in ranked && x.score <= ranked[0].score;
    }
  }

  lemma OfScoreCons(c: Chain, rest: seq<Chain>, s: int)
    ensures OfScore([c] + rest, s) == (if c.score == s then [c] else []) + OfScore(rest, s)
  {
    assert ([c] + rest)[1..] == rest;
  }

  lemma {:induction false} InsertStable(c: Chain, ranked: seq<Chain>, s: int)
    ensures OfScore(Insert(c, ranked), s) == (if c.score == s then [c] else []) + OfScore(ranked, s)
  {
    hide OfScore;
    if ranked == [] || c.score >= ranked[0].score {
      OfScoreCons(c, ranked, s);
    } else {
      InsertStable(c, ranked[1..], s);
      OfScoreCons(ranked[0], Insert(c, ranked[1..]), s);
      OfScoreCons(ranked[0], ranked[1..], s);
      assert ranked == [ranked[0]] + ranked[1..];
    }
  }

  lemma {:induction false} RankedIsStable(chains: seq<Chain>)
    ensures StableSort(chains, Ranked(chains))
  {
    if chains == [] {
    } else {
      RankedIsStable(chains[1..]);
      forall s ensures OfScore(Ranked(chains), s) == OfScore(chains, s) {
        InsertStable(chains[0], Ranked(chains[1..]), s);
      }
      InsertSorted(chains[0], Ranked(chains[1..]));
    }
  }

  lemma {:induction false} OfScoreMember(chains: seq<Chain>, c: Chain)
    ensures c in chains <==> c in OfScore(chains, c.score)
  {
    if chains == [] {
    } else {
      OfScoreMember(chains[1..], c);
    }
  }

  /** A stable sort keeps every chain. */
  lemma StableKeeps(before: seq<Chain>, after: seq<Chain>, c: Chain)
    requires StableSort(before, after)
    ensures c in after <==> c in before
  {
    OfScoreMember(before, c);
    OfScoreMember(after, c);
  }

  /** There is only one stable sort, so any stable algorithm gives the ranking proved here. */
  lemma {:induction false} StableUnique(before: seq<Chain>, a: seq<Chain>, b: seq<Chain>)
    requires StableSort(before, a) && StableSort(before, b)
    ensures a == b
    decreases |a|
  {
    if a == [] {
      if b != [] { StableKeeps(before, a, b[0]); StableKeeps(before, b, b[0]); }
    } else {
      StableKeeps(before, a, a[0]);
      StableKeeps(before, b, a[0]);
      StableKeeps(before, a, b[0]);
      StableKeeps(before, b, b[0]);
      var s := a[0].score;
      assert b[0].score == s;
      assert OfScore(a, s)[0] == a[0] && OfScore(b, s)[0] == b[0];
      assert OfScore(a, s) == OfScore(b, s);
      forall x ensures OfScore(a[1..], x) == OfScore(b[1..], x) {
        assert OfScore(a, x) == OfScore(b, x);
        if x == s {
          assert OfScore(a[1..], x) == OfScore(a, x)[1..];
          assert OfScore(b[1..], x) == OfScore(b, x)[1..];
        } else {
          assert OfScore(a[1..], x) == OfScore(a, x) && OfScore(b[1..], x) == OfScore(b, x);
        }
      }
      assert StableSort(a[1..], a[1..]) && StableSort(a[1..], b[1..]);
      StableUnique(a[1..], a[1..], b[1..]);
    }
  }

  lemma {:induction false} InsertPermutes(c: Chain, ranked: seq<Chain>)
    ensures multiset(Insert(c, ranked)) == multiset([c]) + multiset(ranked)
  {
    if ranked != [] && c.score < ranked[0].score {
      InsertPermutes(c, ranked[1..]);
      assert ranked == [ranked[0]] + ranked[1..];
    }
  }

  lemma {:induction false} RankedPermutes(chains: seq<Chain>)
    ensures multiset(Ranked(chains)) == multiset(chains)
  {
    if chains == [] {
    } else {
      RankedPermutes(chains[1..]);
      InsertPermutes(chains[0], Ranked(chains[1..]));
      assert chains == [chains[0]] + chains[1..];
    }
  }

  lemma StablePermutes(before: seq<Chain>, after: seq<Chain>)
    requires StableSort(before, after)
    ensures multiset(after) == multiset(before) && |after| == |before|
  {
    RankedIsStable(before);
    StableUnique(before, after, Ranked(before));
    RankedPermutes(before);
    assert |multiset(after)| == |after| && |multiset(before)| == |before|;
  }

  // What the ranking contains

  lemma ValidIsChain(nodes: seq<Node>, t: Candidates, k: Key)
    requires t.low == Filter(nodes, Low) && t.high == Filter(nodes, High) && t.Valid(k)
    ensures IsChain(nodes, t.edges, t.maxDepth, t.Make(k))
  {
    hide Query.Route, Query.IsWalk, Distinct;
    FilterExact(nodes, Low);
    FilterExact(nodes, High);
    CandidatesAre(t.edges, t.maxDepth, t.low[k.start], t.high[k.end]);
    AnswerIsRoute(Between(t.edges, t.maxDepth, t.low[k.start], t.high[k.end]), k.walk);
  }

  lemma ChainIsValid(nodes: seq<Node>, t: Candidates, c: Chain) returns (k: Key)
    requires t.low == Filter(nodes, Low) && t.high == Filter(nodes, High) && IsChain(nodes, t.edges, t.maxDepth, c)
    ensures t.Valid(k) && t.Make(k) == c
  {
    FilterExact(nodes, Low);
    FilterExact(nodes, High);
    CandidatesAre(t.edges, t.maxDepth, c.start, c.end);
    var i :| 0 <= i < |t.low| && t.low[i] == c.start;
    var j :| 0 <= j < |t.high| && t.high[j] == c.end;
    var w := RouteIsAnswer(Between(t.edges, t.maxDepth, c.start, c.end), c.path, c.edges);
    assert c.path[0] != c.path[|c.edges|];
    k := Key(i, j, w);
  }

  /** Only chains are reported, and below the limit all of them. */
  lemma SoundAndComplete(nodes: seq<Node>, edges: seq<Edge>, maxDepth: int, keys: seq<Key>, found: seq<Chain>,
                         chains: seq<Chain>, c: Chain)
    requires Complete(nodes, edges, maxDepth, keys, found) && StableSort(found, chains)
    ensures c in chains ==> IsChain(nodes, edges, maxDepth, c)
    ensures |chains| < LIMIT ==> (c in chains <==> IsChain(nodes, edges, maxDepth, c))
  {
    hide IsChain, Candidates.Valid, Candidates.Make, StableSort, Filter, InOrder, Cut;
    var t := Candidates(Filter(nodes, Low), Filter(nodes, High), edges, maxDepth);
    StablePermutes(found, chains);
    StableKeeps(found, chains, c);
    if c in chains {
      var i :| 0 <= i < |found| && found[i] == c;
      ValidIsChain(nodes, t, keys[i]);
    }
    if |chains| < LIMIT && IsChain(nodes, edges, maxDepth, c) {
      var k := ChainIsValid(nodes, t, c);
      assert k.start < |t.low| by { InCandidates(t, k); }
      var i :| 0 <= i < |keys| && keys[i] == k;
      assert found[i] == c;
    }
  }

  lemma InCandidates(t: Candidates, k: Key)
    requires t.Valid(k)
    ensures k.start < |t.low|
  {
  }

  lemma {:induction false} DistinctCount<T>(s: seq<T>)
    ensures Distinct(s) <==> forall x :: multiset(s)[x] <= 1
  {
    if s == [] {
    } else {
      var tail := s[1..];
      assert s == [s[0]] + tail;
      assert multiset(s) == multiset{s[0]} + multiset(tail);
      DistinctCount(tail);
      if s[0] in tail {
        var k :| 0 <= k < |tail| && tail[k] == s[0];
        assert s[0] == s[k + 1];
        assert multiset(s)[s[0]] > 1;
      } else {
        assert forall i :: 0 < i < |s| ==> s[i] == tail[i - 1];
        assert Distinct(s) <==> Distinct(tail);
        assert forall x :: x != s[0] ==> multiset(s)[x] == multiset(tail)[x];
      }
    }
  }

  /** In a graph built by UpsertNode and AddEdge no chain is reported twice. */
  lemma NoChainTwice(nodes: seq<Node>, edges: seq<Edge>, maxDepth: int, keys: seq<Key>, found: seq<Chain>,
                     chains: seq<Chain>)
    requires UniqueIds(nodes) && NoDuplicateEdges(edges)
    requires Complete(nodes, edges, maxDepth, keys, found) && StableSort(found, chains)
    ensures Distinct(chains)
  {
    hide Filter, StableSort, InOrder, Cut, NoDuplicateEdges, Candidates.Make, Candidates.Valid, UniqueIds;
    var t := Candidates(Filter(nodes, Low), Filter(nodes, High), edges, maxDepth);
    forall i, j | 0 <= i < j < |found| ensures found[i] != found[j] {
      assert keys[i] != keys[j];
      if found[i] == found[j] { SameKey(nodes, t, keys[i], keys[j]); }
    }
    StablePermutes(found, chains);
    DistinctCount(found);
    DistinctCount(chains);
  }

  lemma SameKey(nodes: seq<Node>, t: Candidates, k: Key, l: Key)
    requires UniqueIds(nodes) && NoDuplicateEdges(t.edges) && t.low == Filter(nodes, Low)
    requires t.high == Filter(nodes, High)
    requires t.Valid(k) && t.Valid(l) && t.Make(k) == t.Make(l)
    ensures k == l
  {
    FilterExact(nodes, Low);
    FilterExact(nodes, High);
    EdgesTellApart(Between(t.edges, t.maxDepth, t.low[k.start], t.high[k.end]), k.walk, l.walk);
  }

  // What the ranking means

  /** A larger privilege gap, or the same gap in fewer hops. */
  predicate Better(a: Chain, b: Chain) {
    a.Gap() > b.Gap() || (a.Gap() == b.Gap() && a.Hops() < b.Hops())
  }

  ghost predicate ScoreMeansBetter(maxDepth: int) {
    forall nodes, edges, a, b :: IsChain(nodes, edges, maxDepth, a) && IsChain(nodes, edges, maxDepth, b) ==>
      (a.score > b.score <==> Better(a, b))
  }

  lemma LevelsAre(nodes: seq<Node>, edges: seq<Edge>, maxDepth: int, c: Chain)
    requires IsChain(nodes, edges, maxDepth, c)
    ensures 2 <= c.Gap() && 1 <= c.Hops() <= maxDepth
  {
    PrivilegeLevels(c.start.kind);
    PrivilegeLevels(c.end.kind);
  }

  lemma ScoreAtMostTen(nodes: seq<Node>, edges: seq<Edge>, maxDepth: int, a: Chain, b: Chain)
    requires maxDepth <= 10 && IsChain(nodes, edges, maxDepth, a) && IsChain(nodes, edges, maxDepth, b)
    ensures a.score > b.score <==> Better(a, b)
  {
    LevelsAre(nodes, edges, maxDepth, a);
    LevelsAre(nodes, edges, maxDepth, b);
    assert 2 <= a.Gap() && 2 <= b.Gap() && 1 <= a.Hops() <= 10 && 1 <= b.Hops() <= 10;
  }

  function Id(i: nat): string { seq(i, _ => 'x') }

  function Line(n: nat): seq<Edge> { seq(n, i requires 0 <= i < n => Edge(Id(i), Id(i + 1), Accesses, "")) }

  lemma LineIsRoute(n: nat, last: Edge, maxDepth: int, start: Node, end: Node)
    requires 1 <= n <= maxDepth && start.id == Id(0) && end.id == Id(n)
    ensures Between(Line(n) + [last], maxDepth, start, end).Route(seq(n + 1, i requires 0 <= i <= n => Id(i)), Line(n))
  {
    var path, edges := seq(n + 1, i requires 0 <= i <= n => Id(i)), Line(n) + [last];
    forall i, j | 0 <= i < j <= n ensures path[i] != path[j] { assert |path[i]| == i && |path[j]| == j; }
    forall i | 0 <= i < n ensures Line(n)[i] in edges { assert edges[i] == Line(n)[i]; }
  }

  lemma StepIsRoute(line: seq<Edge>, last: Edge, maxDepth: int, start: Node, end: Node)
    requires maxDepth >= 1 && last.from == start.id != end.id == last.to && last.rel == Accesses
    ensures Between(line + [last], maxDepth, start, end).Route([start.id, end.id], [last])
  {
    assert (line + [last])[|line|] == last;
  }

  /** Eleven hops across a gap of three score no more than one hop across a gap of two. */
  lemma ScoreFailsAtEleven(maxDepth: int) returns (nodes: seq<Node>, edges: seq<Edge>, a: Chain, b: Chain)
    requires maxDepth > 10
    ensures IsChain(nodes, edges, maxDepth, a) && IsChain(nodes, edges, maxDepth, b)
    ensures Better(a, b) && a.score == b.score == 19
  {
    hide Query.Route;
    var host, role, token := Node(Id(0), Host, ""), Node("r", Role, ""), Node(Id(11), Token, "");
    nodes := [host, role, token];
    var last := Edge(Id(0), "r", Accesses, "");
    edges := Line(11) + [last];
    a := Chain(seq(12, i requires 0 <= i < 12 => Id(i)), Line(11), host, token, 19);
    b := Chain([Id(0), "r"], [last], host, role, 19);
    CandidatesAre(edges, maxDepth, host, token);
    CandidatesAre(edges, maxDepth, host, role);
    LineIsRoute(11, last, maxDepth, host, token);
    assert a.path == seq(12, i requires 0 <= i <= 11 => Id(i));
    assert |Id(0)| != |"r"|;
    StepIsRoute(Line(11), last, maxDepth, host, role);
  }

  /** The score ranks by gap, then by hops, exactly for depth bounds up to ten. */
  lemma ScoreRanksExactly(maxDepth: int)
    ensures ScoreMeansBetter(maxDepth) <==> maxDepth <= 10
  {
    hide IsChain, Better;
    if maxDepth <= 10 {
      forall nodes, edges, a, b | IsChain(nodes, edges, maxDepth, a) && IsChain(nodes, edges, maxDepth, b)
        ensures a.score > b.score <==> Better(a, b)
      {
        ScoreAtMostTen(nodes, edges, maxDepth, a, b);
      }
    } else {
      var nodes, edges, a, b := ScoreFailsAtEleven(maxDepth);
    }
  }

  /** No chain of the result is better than one ranked before it. */
  lemma BestFirst(nodes: seq<Node>, edges: seq<Edge>, maxDepth: int, keys: seq<Key>, found: seq<Chain>,
                  chains: seq<Chain>, i: nat, j: nat)
    requires Complete(nodes, edges, maxDepth, keys, found) && StableSort(found, chains) && maxDepth <= 10
    requires i < j < |chains|
    ensures !Better(chains[j], chains[i])
  {
    hide IsChain, Better, Complete;
    SoundAndComplete(nodes, edges, maxDepth, keys, found, chains, chains[i]);
    SoundAndComplete(nodes, edges, maxDepth, keys, found, chains, chains[j]);
    ScoreAtMostTen(nodes, edges, maxDepth, chains[j], chains[i]);
  }
}
