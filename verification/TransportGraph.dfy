/** The TMS landscape as a graph: choosing the source of a delivery rule, and everything downstream of a node. */
module TransportGraph {

  datatype Route = Route(id: nat, source: nat, target: nat)

  datatype Node = Node(id: nat, name: string)

  datatype Tenant = Tenant(name: string, node: nat)

  /** b can be reached from a along at most k routes. */
  ghost predicate Within(routes: set<Route>, a: nat, b: nat, k: nat)
    decreases k
  {
    if k == 0 then a == b
    else Within(routes, a, b, k - 1) || exists r :: r in routes && r.target == b && Within(routes, a, r.source, k - 1)
  }

  ghost predicate Reachable(routes: set<Route>, a: nat, b: nat) {
    exists k: nat :: Within(routes, a, b, k)
  }

  function Edges(routes: seq<Route>): set<Route> {
    set r | r in routes
  }

  lemma {:induction false} WithinMore(routes: set<Route>, a: nat, b: nat, k: nat, more: nat)
    requires Within(routes, a, b, k) && k <= more
    ensures Within(routes, a, b, more)
  {
    if k < more { WithinMore(routes, a, b, k, more - 1); }
  }

  lemma {:induction false} NeedsIncoming(routes: set<Route>, a: nat, b: nat, k: nat)
    requires Within(routes, a, b, k) && a != b
    ensures exists r :: r in routes && r.target == b
    decreases k
  {
    if !Within(routes, a, b, k - 1) {
      var r :| r in routes && r.target == b && Within(routes, a, r.source, k - 1);
    } else {
      NeedsIncoming(routes, a, b, k - 1);
    }
  }

  /** level gives every node it has a number of routes that suffices, and leaves nothing to add. */
  ghost predicate Closed(routes: set<Route>, level: map<nat, nat>) {
    forall r | r in routes && r.source in level :: r.target in level && level[r.target] <= level[r.source] + 1
  }

  lemma {:induction false} ClosedHasAll(routes: set<Route>, level: map<nat, nat>, a: nat, b: nat, k: nat)
    requires Closed(routes, level) && a in level && level[a] == 0 && Within(routes, a, b, k)
    ensures b in level && level[b] <= k
    decreases k
  {
    if k > 0 {
      if Within(routes, a, b, k - 1) {
        ClosedHasAll(routes, level, a, b, k - 1);
      } else {
        var r :| r in routes && r.target == b && Within(routes, a, r.source, k - 1);
        ClosedHasAll(routes, level, a, r.source, k - 1);
      }
    }
  }

  // ----- The source of a set of tenants -----

  function NodesOf(tenants: seq<Tenant>): set<nat> {
    set t | t in tenants :: t.node
  }

  /** The routes between included nodes, in the order TMS lists them. */
  function Inner(routes: seq<Route>, nodes: set<nat>): (inner: seq<Route>)
    ensures forall r :: r in inner <==> r in routes && r.source in nodes && r.target in nodes
  {
    if routes == [] then []
    else
      var rest := Inner(routes[..|routes| - 1], nodes);
      var r := routes[|routes| - 1];
      if r.source in nodes && r.target in nodes then rest + [r] else rest
  }

  function InnerSet(routes: seq<Route>, nodes: set<nat>): set<Route> {
    set r | r in routes && r.source in nodes && r.target in nodes
  }

  /** The node starts the one chain all included nodes lie on. */
  ghost predicate Heads(routes: seq<Route>, nodes: set<nat>, m: nat) {
    && m in nodes
    && (forall r | r in InnerSet(routes, nodes) :: r.target != m)
    && (forall n | n in nodes :: Reachable(InnerSet(routes, nodes), m, n))
  }

  /** At most one node can. */
  lemma OneHead(routes: seq<Route>, nodes: set<nat>, m: nat, n: nat)
    requires Heads(routes, nodes, m) && n in nodes && (forall r | r in InnerSet(routes, nodes) :: r.target != n)
    ensures m == n
  {
    var k: nat :| Within(InnerSet(routes, nodes), m, n, k);
    if m != n { NeedsIncoming(InnerSet(routes, nodes), m, n, k); }
  }

  datatype Selection =
    | Selected(source: Tenant, routes: seq<Route>, nodes: seq<Node>)
    | NoSource
    | NotOnChain(tenant: Tenant, source: Tenant)

  /** Nodes by id; of nodes that share one, the last. */
  function NodeMap(nodes: seq<Node>): map<nat, Node> {
    if nodes == [] then map[] else NodeMap(nodes[..|nodes| - 1])[nodes[|nodes| - 1].id := nodes[|nodes| - 1]]
  }

  /** The zero node stands in for one TMS does not list. */
  function Lookup(nodes: map<nat, Node>, id: nat): Node {
    if id in nodes then nodes[id] else Node(0, "")
  }

  /** What TMS lists under an id: the last node that has it, or the zero node. */
  ghost predicate NodeFor(nodes: seq<Node>, id: nat, n: Node) {
    || (exists k :: 0 <= k < |nodes| && nodes[k] == n && n.id == id && forall j | k < j < |nodes| :: nodes[j].id != id)
    || (n.id == 0 && n.name == "" && forall k | 0 <= k < |nodes| :: nodes[k].id != id)
  }

  lemma {:induction false} LookupIs(nodes: seq<Node>, id: nat)
    ensures NodeFor(nodes, id, Lookup(NodeMap(nodes), id))
    ensures id in NodeMap(nodes) <==> exists k :: 0 <= k < |nodes| && nodes[k].id == id
    decreases |nodes|
  {
    if nodes != [] {
      var n := |nodes| - 1;
      LookupIs(nodes[..n], id);
      if nodes[n].id == id {
        assert Lookup(NodeMap(nodes), id) == nodes[n];
      } else {
        var found := Lookup(NodeMap(nodes), id);
        assert found == Lookup(NodeMap(nodes[..n]), id);
        if k :| 0 <= k < n && nodes[..n][k] == found && found.id == id && forall j | k < j < n :: nodes[..n][j].id != id {
          assert nodes[k] == found;
          assert forall j | k < j < |nodes| :: nodes[j].id != id by {
            forall j | k < j < |nodes| ensures nodes[j].id != id { if j < n { assert nodes[..n][j] == nodes[j]; } }
          }
        }
        if k :| 0 <= k < |nodes| && nodes[k].id == id { assert nodes[..n][k] == nodes[k]; }
      }
    }
  }

  lemma NodesFor(tenants: seq<Tenant>, nodes: seq<Node>, included: seq<Node>)
    requires |included| == |tenants| && forall i | 0 <= i < |tenants| :: included[i] == Lookup(NodeMap(nodes), tenants[i].node)
    ensures forall i | 0 <= i < |tenants| :: NodeFor(nodes, tenants[i].node, included[i])
  {
    forall i | 0 <= i < |tenants| ensures NodeFor(nodes, tenants[i].node, included[i]) { LookupIs(nodes, tenants[i].node); }
  }

  method BuildNodeMap(nodes: seq<Node>) returns (m: map<nat, Node>)
    ensures m == NodeMap(nodes)
  {
    m := map[];
    for i := 0 to |nodes|
      invariant m == NodeMap(nodes[..i])
    {
      assert nodes[..i + 1][..i] == nodes[..i];
      m := m[nodes[i].id := nodes[i]];
    }
    assert nodes[..|nodes|] == nodes;
  }

  /** The routes leaving a node, in order. */
  function From(routes: seq<Route>, n: nat): (r: seq<Route>)
    ensures forall x :: x in r <==> x in routes && x.source == n
  {
    if routes == [] then []
    else
      var last := routes[|routes| - 1];
      From(routes[..|routes| - 1], n) + (if last.source == n then [last] else [])
  }

  ghost predicate IsAdjacency(adj: map<nat, seq<Route>>, routes: seq<Route>) {
    forall n: nat :: From(routes, n) == if n in adj then adj[n] else []
  }

  method BuildAdjacency(routes: seq<Route>) returns (adj: map<nat, seq<Route>>)
    ensures IsAdjacency(adj, routes)
  {
    adj := map[];
    for i := 0 to |routes|
      invariant IsAdjacency(adj, routes[..i])
    {
      var r := routes[i];
      assert routes[..i + 1][..i] == routes[..i];
      adj := adj[r.source := (if r.source in adj then adj[r.source] else []) + [r]];
    }
    assert routes[..|routes|] == routes;
  }

  function Targets(out: seq<Route>): set<nat> {
    set r | r in out :: r.target
  }

  /** Marks and queues the targets not seen yet. */
  method Visit(out: seq<Route>, reachable: set<nat>, queue: seq<nat>) returns (reachable': set<nat>, queue': seq<nat>)
    ensures reachable' == reachable + Targets(out)
    ensures forall n :: n in queue' <==> n in queue || (n in reachable' && n !in reachable)
    ensures reachable' == reachable ==> queue' == queue
  {
    reachable', queue' := reachable, queue;
    for i := 0 to |out|
      invariant reachable' == reachable + Targets(out[..i])
      invariant forall n :: n in queue' <==> n in queue || (n in reachable' && n !in reachable)
      invariant reachable' == reachable ==> queue' == queue
    {
      assert out[..i + 1] == out[..i] + [out[i]];
      if out[i].target !in reachable' {
        reachable' := reachable' + {out[i].target};
        queue' := queue' + [out[i].target];
      }
    }
    assert out[..|out|] == out;
  }

  /** Breadth-first search from a node over routes that stay inside a set of nodes. */
  method Reach(routes: seq<Route>, nodes: set<nat>, source: nat) returns (reachable: set<nat>)
    requires source in nodes && forall r | r in routes :: r.target in nodes
    ensures forall n: nat :: n in reachable <==> Reachable(Edges(routes), source, n)
  {
    ghost var edges := Edges(routes);
    var adj := BuildAdjacency(routes);
    reachable := {source};
    var queue := [source];
    assert Within(edges, source, source, 0);
    hide Within, Reachable;
    while queue != []
      invariant source in reachable && reachable <= nodes
      invariant forall n | n in queue :: n in reachable
      invariant forall n | n in reachable :: Reachable(edges, source, n)
      invariant forall r | r in routes && r.source in reachable && r.source !in queue :: r.target in reachable
      decreases nodes - reachable, |queue|
    {
      var curr := queue[0];
      ghost var before := reachable;
      assert queue == [curr] + queue[1..];
      var out := if curr in adj then adj[curr] else [];
      assert out == From(routes, curr);
      hide From, IsAdjacency;
      reachable, queue := Visit(out, reachable, queue[1..]);
      forall n | n in reachable ensures Reachable(edges, source, n) {
        if n !in before {
          var r :| r in out && r.target == n;
          OneMore(edges, source, r);
        }
      }
    }
    assert forall n: nat :: n in reachable <==> Reachable(edges, source, n) by { OnlyReachable(edges, reachable, source); }
  }

  lemma OnlyReachable(edges: set<Route>, reachable: set<nat>, source: nat)
    requires source in reachable && forall n | n in reachable :: Reachable(edges, source, n)
    requires forall r | r in edges && r.source in reachable :: r.target in reachable
    ensures forall n: nat :: n in reachable <==> Reachable(edges, source, n)
  {
    forall n: nat, k: nat | Within(edges, source, n, k) ensures n in reachable { InClosedSet(edges, reachable, source, n, k); }
  }

  lemma OneMore(routes: set<Route>, a: nat, r: Route)
    requires r in routes && Reachable(routes, a, r.source)
    ensures Reachable(routes, a, r.target)
  {
    var k: nat :| Within(routes, a, r.source, k);
    assert Within(routes, a, r.target, k + 1);
  }

  lemma {:induction false} InClosedSet(routes: set<Route>, nodes: set<nat>, a: nat, b: nat, k: nat)
    requires a in nodes && (forall r | r in routes && r.source in nodes :: r.target in nodes) && Within(routes, a, b, k)
    ensures b in nodes
    decreases k
  {
    if k > 0 {
      if Within(routes, a, b, k - 1) {
        InClosedSet(routes, nodes, a, b, k - 1);
      } else {
        var r :| r in routes && r.target == b && Within(routes, a, r.source, k - 1);
        InClosedSet(routes, nodes, a, r.source, k - 1);
      }
    }
  }

  /** What SourceAndRoute may answer: the first tenant no included route leads to, provided it heads the chain. */
  ghost predicate SelectionOf(tenants: seq<Tenant>, routes: seq<Route>, nodes: seq<Node>, s: Selection) {
    var included := NodesOf(tenants);
    && (s.Selected? <==> exists m :: Heads(routes, included, m))
    && (s.Selected? ==> s.source in tenants && Heads(routes, included, s.source.node) && s.routes == Inner(routes, included)
                        && |s.nodes| == |tenants|
                        && forall i | 0 <= i < |tenants| :: NodeFor(nodes, tenants[i].node, s.nodes[i]))
    && (s.NoSource? <==> forall n | n in included :: exists r :: r in InnerSet(routes, included) && r.target == n)
    && (s.NotOnChain? ==> s.source in tenants && s.tenant in tenants
                          && !Reachable(InnerSet(routes, included), s.source.node, s.tenant.node))
  }

  method Include(tenants: seq<Tenant>, nodeAll: map<nat, Node>) returns (nodeIDs: set<nat>, includedNodes: seq<Node>)
    ensures nodeIDs == NodesOf(tenants)
    ensures |includedNodes| == |tenants| && forall i | 0 <= i < |tenants| :: includedNodes[i] == Lookup(nodeAll, tenants[i].node)
  {
    nodeIDs, includedNodes := {}, [];
    for i := 0 to |tenants|
      invariant nodeIDs == NodesOf(tenants[..i])
      invariant |includedNodes| == i && forall j | 0 <= j < i :: includedNodes[j] == Lookup(nodeAll, tenants[j].node)
    {
      assert tenants[..i + 1] == tenants[..i] + [tenants[i]];
      nodeIDs := nodeIDs + {tenants[i].node};
      includedNodes := includedNodes + [Lookup(nodeAll, tenants[i].node)];
    }
    assert tenants[..|tenants|] == tenants;
  }

  method IncludeRoutes(routes: seq<Route>, nodeIDs: set<nat>) returns (includedRoutes: seq<Route>, targetNodeIDs: set<nat>)
    ensures includedRoutes == Inner(routes, nodeIDs) && targetNodeIDs == Targets(includedRoutes)
    ensures Edges(includedRoutes) == InnerSet(routes, nodeIDs)
  {
    includedRoutes, targetNodeIDs := [], {};
    for i := 0 to |routes|
      invariant includedRoutes == Inner(routes[..i], nodeIDs)
      invariant targetNodeIDs == Targets(includedRoutes)
    {
      assert routes[..i + 1][..i] == routes[..i];
      if routes[i].source in nodeIDs && routes[i].target in nodeIDs {
        includedRoutes := includedRoutes + [routes[i]];
        targetNodeIDs := targetNodeIDs + {routes[i].target};
      }
    }
    assert routes[..|routes|] == routes;
  }

  method SourceAndRoute(tenants: seq<Tenant>, routes: seq<Route>, nodes: seq<Node>) returns (s: Selection)
    ensures SelectionOf(tenants, routes, nodes, s)
  {
    var nodeAll := BuildNodeMap(nodes);
    var nodeIDs, includedNodes := Include(tenants, nodeAll);
    var includedRoutes, targetNodeIDs := IncludeRoutes(routes, nodeIDs);
    hide Reachable, Inner, NodeMap, Lookup, NodeFor;
    var first := 0;
    while first < |tenants| && tenants[first].node in targetNodeIDs
      invariant 0 <= first <= |tenants|
      invariant forall j | 0 <= j < first :: tenants[j].node in targetNodeIDs
    {
      first := first + 1;
    }
    if first == |tenants| {
      AllEntered(tenants, routes, nodes, includedRoutes);
      return NoSource;
    }
    var source := tenants[first];
    var reachable := Reach(includedRoutes, nodeIDs, source.node);
    for i := 0 to |tenants|
      invariant forall j | 0 <= j < i :: tenants[j].node in reachable
    {
      if tenants[i].node !in reachable {
        NotHeaded(routes, nodeIDs, source.node, tenants[i].node);
        return NotOnChain(tenants[i], source);
      }
    }
    assert Heads(routes, nodeIDs, source.node);
    NodesFor(tenants, nodes, includedNodes);
    return Selected(source, includedRoutes, includedNodes);
  }

  lemma AllEntered(tenants: seq<Tenant>, routes: seq<Route>, nodes: seq<Node>, inner: seq<Route>)
    requires Edges(inner) == InnerSet(routes, NodesOf(tenants)) && forall t | t in tenants :: t.node in Targets(inner)
    ensures SelectionOf(tenants, routes, nodes, NoSource)
  {
    hide Reachable;
    forall n | n in NodesOf(tenants) ensures exists r :: r in InnerSet(routes, NodesOf(tenants)) && r.target == n {
      var r :| r in inner && r.target == n;
      assert r in Edges(inner);
    }
  }

  lemma NotHeaded(routes: seq<Route>, nodes: set<nat>, source: nat, other: nat)
    requires source in nodes && other in nodes && (forall r | r in InnerSet(routes, nodes) :: r.target != source)
    requires !Reachable(InnerSet(routes, nodes), source, other)
    ensures !exists m: nat :: Heads(routes, nodes, m)
  {
    hide Reachable;
    if m :| Heads(routes, nodes, m) { OneHead(routes, nodes, m, source); }
  }

  /** Listing the tenants in another order, or more than once, changes neither success, nor the source node, nor the routes. */
  lemma TenantOrderIrrelevant(a: seq<Tenant>, b: seq<Tenant>, routes: seq<Route>, nodes: seq<Node>, s: Selection, t: Selection)
    requires (forall x :: x in a <==> x in b) && SelectionOf(a, routes, nodes, s) && SelectionOf(b, routes, nodes, t)
    ensures s.Selected? == t.Selected? && s.NoSource? == t.NoSource?
    ensures s.Selected? ==> s.source.node == t.source.node && s.routes == t.routes
  {
    hide Reachable, Inner, NodeMap, Lookup;
    assert NodesOf(a) == NodesOf(b);
    if s.Selected? { OneHead(routes, NodesOf(a), s.source.node, t.source.node); }
  }
}
