/**
 The security graph: nodes and edges kept as lists, their update operations and
 the adjacency lists built from them
 (profiles/reference/sec/extensions/security-graph.ts:25-162).
 */
module SecurityGraph {
  import opened Basics

  datatype NodeType =
    | Host | Service | Endpoint | Api | User | Identity | Role | Org | Domain | Subdomain
    | Credential | Token | Workflow | Permission | Finding | Hypothesis | TrustBoundary | Database | Queue

  datatype Relationship =
    | Owns | Accesses | Calls | Trusts | BelongsTo | Authenticates | Authorizes | Reads | Writes
    | DependsOn | FlowsTo | Exposes | Requires | Enables | CombinesWith

  datatype Node = Node(id: string, kind: NodeType, name: string)

  datatype Edge = Edge(from: string, to: string, rel: Relationship, detail: string)

  /** PRIVILEGE_LEVEL */
  function Privilege(kind: NodeType): nat {
    match kind
    case TrustBoundary => 0
    case Domain => 1
    case Subdomain => 1
    case Org => 1
    case Host => 2
    case Queue => 2
    case Database => 3
    case Service => 3
    case Endpoint => 3
    case Api => 3
    case Workflow => 3
    case Permission => 4
    case Role => 4
    case User => 4
    case Identity => 5
    case Credential => 5
    case Token => 5
    case Finding => 0
    case Hypothesis => 0
  }

  const ESCALATION: set<Relationship> := {Accesses, Authenticates, Authorizes, FlowsTo, Enables, CombinesWith, Trusts}

  const ACCESS: set<Relationship> := {Reads, Writes, Accesses, Calls, FlowsTo}

  const EVERY: set<Relationship> :=
    {Owns, Accesses, Calls, Trusts, BelongsTo, Authenticates, Authorizes, Reads, Writes,
     DependsOn, FlowsTo, Exposes, Requires, Enables, CombinesWith}

  predicate UniqueIds(nodes: seq<Node>) {
    forall i, j :: 0 <= i < j < |nodes| ==> nodes[i].id != nodes[j].id
  }

  predicate SameEdge(a: Edge, b: Edge) { a.from == b.from && a.to == b.to && a.rel == b.rel }

  predicate NoDuplicateEdges(edges: seq<Edge>) {
    forall i, j :: 0 <= i < j < |edges| ==> !SameEdge(edges[i], edges[j])
  }

  /** The node found first under an id. */
  function Lookup(nodes: seq<Node>, id: string): Option<Node> {
    if nodes == [] then None else if nodes[0].id == id then Some(nodes[0]) else Lookup(nodes[1..], id)
  }

  lemma {:induction false} LookupAt(nodes: seq<Node>, id: string, k: nat)
    requires k < |nodes| && nodes[k].id == id && forall i :: 0 <= i < k ==> nodes[i].id != id
    ensures Lookup(nodes, id) == Some(nodes[k])
    decreases k
  {
    if k == 0 {
    } else {
      forall i | 0 <= i < k - 1 ensures nodes[1..][i].id != id { assert nodes[1..][i] == nodes[i + 1]; }
      LookupAt(nodes[1..], id, k - 1);
    }
  }

  lemma {:induction false} LookupNone(nodes: seq<Node>, id: string)
    requires forall i :: 0 <= i < |nodes| ==> nodes[i].id != id
    ensures Lookup(nodes, id) == None
  {
    if nodes == [] {
    } else {
      forall i | 0 <= i < |nodes| - 1 ensures nodes[1..][i].id != id { assert nodes[1..][i] == nodes[i + 1]; }
      LookupNone(nodes[1..], id);
    }
  }

  /** Replacing or appending a node under its id changes what is found under that id and nothing else. */
  lemma {:induction false} LookupReplace(nodes: seq<Node>, k: nat, node: Node, id: string)
    requires k < |nodes| && nodes[k].id == node.id && forall i :: 0 <= i < k ==> nodes[i].id != node.id
    ensures Lookup(nodes[k := node], id) == if id == node.id then Some(node) else Lookup(nodes, id)
    decreases k
  {
    if k > 0 {
      forall i | 0 <= i < k - 1 ensures nodes[1..][i].id != node.id { assert nodes[1..][i] == nodes[i + 1]; }
      LookupReplace(nodes[1..], k - 1, node, id);
      assert nodes[k := node][1..] == nodes[1..][k - 1 := node];
    } else {
      assert nodes[0 := node][1..] == nodes[1..];
    }
  }

  lemma {:induction false} LookupAppend(nodes: seq<Node>, node: Node, id: string)
    requires forall i :: 0 <= i < |nodes| ==> nodes[i].id != node.id
    ensures Lookup(nodes + [node], id) == if id == node.id then Some(node) else Lookup(nodes, id)
  {
    if nodes == [] {
      assert ([] + [node])[1..] == [];
    } else {
      forall i | 0 <= i < |nodes| - 1 ensures nodes[1..][i].id != node.id { assert nodes[1..][i] == nodes[i + 1]; }
      LookupAppend(nodes[1..], node, id);
      assert (nodes + [node])[1..] == nodes[1..] + [node];
    }
  }

  /** Outgoing edges of a node, in the order they are stored. */
  function Out(edges: seq<Edge>, id: string): seq<Edge> {
    if edges == [] then []
    else
      var n := |edges| - 1;
      Out(edges[..n], id) + (if edges[n].from == id then [edges[n]] else [])
  }

  /** Where those edges are stored. */
  function OutIndices(edges: seq<Edge>, id: string): seq<nat> {
    if edges == [] then []
    else
      var n := |edges| - 1;
      OutIndices(edges[..n], id) + (if edges[n].from == id then [n] else [])
  }

  /** The listed positions hold the listed edges. */
  predicate Indexes(edges: seq<Edge>, id: string, out: seq<Edge>, index: seq<nat>) {
    && |out| == |index|
    && forall k :: 0 <= k < |out| ==> index[k] < |edges| && edges[index[k]] == out[k] && edges[index[k]].from == id
  }

  predicate Increasing(index: seq<nat>) { forall j, k :: 0 <= j < k < |index| ==> index[j] < index[k] }

  predicate AllIndexed(edges: seq<Edge>, id: string, index: seq<nat>) {
    forall i :: 0 <= i < |edges| && edges[i].from == id ==> i in index
  }

  lemma {:induction false} OutIsIndexed(edges: seq<Edge>, id: string)
    ensures Indexes(edges, id, Out(edges, id), OutIndices(edges, id))
    ensures Increasing(OutIndices(edges, id)) && AllIndexed(edges, id, OutIndices(edges, id))
    decreases |edges|
  {
    if edges == [] {
    } else {
      var n := |edges| - 1;
      OutIsIndexed(edges[..n], id);
      OneMoreEdge(edges, id, Out(edges[..n], id), OutIndices(edges[..n], id));
    }
  }

  lemma OneMoreEdge(edges: seq<Edge>, id: string, out: seq<Edge>, index: seq<nat>)
    requires edges != []
    requires Indexes(edges[..|edges| - 1], id, out, index)
    requires Increasing(index) && AllIndexed(edges[..|edges| - 1], id, index)
    ensures var n := |edges| - 1;
      var out' := out + (if edges[n].from == id then [edges[n]] else []);
      var index' := index + (if edges[n].from == id then [n] else []);
      Indexes(edges, id, out', index') && Increasing(index') && AllIndexed(edges, id, index')
  {
    var n := |edges| - 1;
    forall i | 0 <= i < n && edges[i].from == id ensures i in index { assert edges[..n][i].from == id; }
  }

  function Neighbours(adj: map<string, seq<Edge>>, id: string): seq<Edge> {
    if id in adj then adj[id] else []
  }

  class Graph {
    var nodes: seq<Node>
    var edges: seq<Edge>

    constructor ()
      ensures nodes == [] && edges == []
    {
      nodes, edges := [], [];
    }

    method UpsertNode(node: Node)
      modifies this`nodes
      ensures forall id :: Lookup(nodes, id) == if id == node.id then Some(node) else Lookup(old(nodes), id)
      ensures |nodes| == |old(nodes)| + (if Lookup(old(nodes), node.id).None? then 1 else 0)
      ensures forall i :: 0 <= i < |old(nodes)| ==> nodes[i].id == old(nodes)[i].id
      ensures UniqueIds(old(nodes)) ==> UniqueIds(nodes)
    {
      var k := 0;
      while k < |nodes| && nodes[k].id != node.id
        invariant k <= |nodes|
        invariant forall i :: 0 <= i < k ==> nodes[i].id != node.id
      {
        k := k + 1;
      }
      if k < |nodes| {
        forall id { LookupReplace(nodes, k, node, id); }
        LookupAt(nodes, node.id, k);
        nodes := nodes[k := node];
      } else {
        forall id { LookupAppend(nodes, node, id); }
        LookupNone(nodes, node.id);
        nodes := nodes + [node];
      }
    }

    /** An edge that is already there only has its detail replaced, and only by a non-empty one. */
    method AddEdge(edge: Edge)
      modifies this`edges
      ensures (exists i :: 0 <= i < |old(edges)| && SameEdge(old(edges)[i], edge)) ==>
        && |edges| == |old(edges)| && (forall i :: 0 <= i < |edges| ==> SameEdge(edges[i], old(edges)[i]))
        && exists k :: 0 <= k < |edges| && SameEdge(edges[k], edge)
             && (forall i :: 0 <= i < k ==> !SameEdge(edges[i], edge))
             && edges[k].detail == (if edge.detail != "" then edge.detail else old(edges)[k].detail)
             && forall i :: 0 <= i < |edges| && i != k ==> edges[i] == old(edges)[i]
      ensures !(exists i :: 0 <= i < |old(edges)| && SameEdge(old(edges)[i], edge)) ==> edges == old(edges) + [edge]
      ensures NoDuplicateEdges(old(edges)) ==> NoDuplicateEdges(edges)
    {
      var k := 0;
      while k < |edges|
            && !(edges[k].from == edge.from && edges[k].to == edge.to && edges[k].rel == edge.rel)
        invariant k <= |edges|
        invariant forall i :: 0 <= i < k ==> !SameEdge(edges[i], edge)
      {
        k := k + 1;
      }
      if k < |edges| {
        if edge.detail != "" {
          edges := edges[k := edges[k].(detail := edge.detail)];
        }
        assert SameEdge(edges[k], edge);
      } else {
        edges := edges + [edge];
      }
    }

    /** Adjacency lists; a node without an entry has no outgoing edges. */
    method Adjacency() returns (adj: map<string, seq<Edge>>)
      ensures forall id :: Neighbours(adj, id) == Out(edges, id)
    {
      adj := map[];
      for i := 0 to |nodes|
        invariant forall id :: id in adj ==> adj[id] == []
      {
        adj := adj[nodes[i].id := []];
      }
      for i := 0 to |edges|
        invariant forall id :: Neighbours(adj, id) == Out(edges[..i], id)
      {
        var e := edges[i];
        assert edges[..i + 1][..i] == edges[..i];
        if e.from !in adj { adj := adj[e.from := []]; }
        adj := adj[e.from := adj[e.from] + [e]];
      }
      assert edges[..|edges|] == edges;
    }
  }
}
