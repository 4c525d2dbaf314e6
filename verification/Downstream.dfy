/** Everything downstream of a node: the routes and nodes a transport request may travel from there. */
module Downstream {
  import opened TransportGraph

  /** What the search has found so far, and the nodes it has still to look at. */
  datatype Walk = Walk(visited: set<nat>, seen: set<nat>, routes: seq<Route>, nodes: seq<Node>, queue: seq<nat>)

  /** The routes the search follows: those that lead to a node TMS lists. */
  function Open(routes: seq<Route>, known: set<nat>): set<Route> {
    set r | r in routes && r.target in known
  }

  /** Route ids name routes. */
  ghost predicate IdsNameRoutes(routes: seq<Route>) {
    forall a, b | a in routes && b in routes && a.id == b.id :: a == b
  }

  function Ids(nodes: seq<Node>): (ids: seq<nat>)
    ensures |ids| == |nodes| && forall i | 0 <= i < |nodes| :: ids[i] == nodes[i].id
  {
    seq(|nodes|, i requires 0 <= i < |nodes| => nodes[i].id)
  }

  /** The nodes in the order they were met. */
  function Order(source: nat, nodes: seq<Node>): seq<nat> {
    [source] + Ids(nodes)
  }

  ghost predicate Distinct<T(!new)>(s: seq<T>) {
    forall i, j | 0 <= i < j < |s| :: s[i] != s[j]
  }

  /** Each node met once, the nearer ones first. */
  ghost predicate Layered(order: seq<nat>, level: map<nat, nat>) {
    && (forall n :: n in level <==> n in order)
    && Distinct(order)
    && (forall i, j | 0 <= i < j < |order| :: level[order[i]] <= level[order[j]])
  }

  /** level: a number of routes that leads to each node met. */
  ghost predicate NodesOk(source: nat, edges: set<Route>, known: map<nat, Node>, w: Walk, level: map<nat, nat>) {
    var order := Order(source, w.nodes);
    && level.Keys == w.visited && source in level && level[source] == 0
    && Layered(order, level)
    && (forall n | n in level :: n in known && Within(edges, source, n, level[n]))
    && (forall n | n in w.nodes :: n.id in known && n == known[n.id])
    && |w.queue| <= |order| && w.queue == order[|order| - |w.queue|..]
  }

  ghost predicate RoutesOk(routes: seq<Route>, known: set<nat>, w: Walk, level: map<nat, nat>) {
    && (forall id :: id in w.seen <==> exists r :: r in w.routes && r.id == id)
    && Distinct(w.routes)
    && (forall r | r in w.routes :: r in routes && r.source in level)
    && (forall r | r in w.routes && r.target in known :: r.target in level && level[r.target] <= level[r.source] + 1)
  }

  /** Every route of a node no longer queued has been taken. */
  ghost predicate Followed(routes: seq<Route>, w: Walk, except: set<nat>) {
    forall r | r in routes && r.source in w.visited && r.source !in w.queue && r.source !in except :: r in w.routes
  }

  /** While curr is looked at, nothing lies more than one route beyond it. */
  ghost predicate Frontier(w: Walk, level: map<nat, nat>, curr: nat) {
    && curr in level && curr !in w.queue
    && (forall n | n in level :: level[n] <= level[curr] + 1)
    && (forall n | n in w.queue :: n in level && level[curr] <= level[n])
  }

  /** Nor, between nodes, more than one route beyond the next one. */
  ghost predicate Near(w: Walk, level: map<nat, nat>) {
    w.queue != [] ==> w.queue[0] in level && forall n | n in level :: level[n] <= level[w.queue[0]] + 1
  }

  /** All that holds of the walk while curr is looked at. */
  ghost predicate Looking(source: nat, known: map<nat, Node>, routes: seq<Route>, w: Walk, level: map<nat, nat>, curr: nat) {
    && NodesOk(source, Open(routes, known.Keys), known, w, level) && RoutesOk(routes, known.Keys, w, level)
    && Followed(routes, w, {curr}) && Frontier(w, level, curr)
  }

  /** ... and in between. */
  ghost predicate Walked(source: nat, known: map<nat, Node>, routes: seq<Route>, w: Walk, level: map<nat, nat>) {
    && NodesOk(source, Open(routes, known.Keys), known, w, level) && RoutesOk(routes, known.Keys, w, level)
    && Followed(routes, w, {}) && Near(w, level)
  }

  /** Taking a route that leads nowhere new. */
  lemma TakeKnown(known: map<nat, Node>, routes: seq<Route>, w: Walk, level: map<nat, nat>, r: Route)
    requires RoutesOk(routes, known.Keys, w, level)
    requires r in routes && r.source in level && r.id !in w.seen && Frontier(w, level, r.source)
    requires r.target in level || r.target !in known
    ensures RoutesOk(routes, known.Keys, w.(seen := w.seen + {r.id}, routes := w.routes + [r]), level)
  {
    assert r !in w.routes;
    var taken := w.routes + [r];
    assert forall x :: x in taken <==> x in w.routes || x == r;
    if r.target in level { assert level[r.target] <= level[r.source] + 1; }
  }

  /** The walk with one more node met. */
  function Met(w: Walk, n: nat, known: map<nat, Node>): Walk
    requires n in known
  {
    w.(nodes := w.nodes + [known[n]], visited := w.visited + {n}, queue := w.queue + [n])
  }

  lemma MeetNode(source: nat, edges: set<Route>, known: map<nat, Node>, w: Walk, level: map<nat, nat>, r: Route)
    requires NodesOk(source, edges, known, w, level) && Frontier(w, level, r.source)
    requires r in edges && r.target in known && r.target !in w.visited && known[r.target].id == r.target
    ensures NodesOk(source, edges, known, Met(w, r.target, known), level[r.target := level[r.source] + 1])
  {
    var n := r.target;
    var next := Met(w, n, known);
    var level' := level[n := level[r.source] + 1];
    assert Within(edges, source, n, level[r.source] + 1) by { assert Within(edges, source, r.source, level[r.source]); }
    hide Within, Layered;
    var order := Order(source, w.nodes);
    var order' := Order(source, next.nodes);
    assert order' == order + [n];
    LayeredMore(order, level, n, level[r.source] + 1);
    hide Layered, Frontier;
    assert next.queue == order'[|order'| - |next.queue|..];
    forall x | x in level' ensures x in known && Within(edges, source, x, level'[x]) {
      if x != n { assert x in level; }
    }
  }

  lemma LayeredMore(order: seq<nat>, level: map<nat, nat>, n: nat, l: nat)
    requires Layered(order, level) && n !in level && forall x | x in level :: level[x] <= l
    ensures Layered(order + [n], level[n := l])
  {
    var order', level' := order + [n], level[n := l];
    assert forall x :: x in order' <==> x in order || x == n;
    forall i, j | 0 <= i < j < |order'| ensures level'[order'[i]] <= level'[order'[j]] && order'[i] != order'[j] {
      assert order[i] in order;
      if j < |order| { assert order[j] in order; }
    }
  }

  lemma MeetRoutes(routes: seq<Route>, known: map<nat, Node>, w: Walk, level: map<nat, nat>, r: Route)
    requires RoutesOk(routes, known.Keys, w, level) && Frontier(w, level, r.source)
    requires r in routes && r.target in known && r.target !in level && r.id !in w.seen
    ensures RoutesOk(routes, known.Keys, Met(w.(seen := w.seen + {r.id}, routes := w.routes + [r]), r.target, known),
                     level[r.target := level[r.source] + 1])
  {
    var taken := w.routes + [r];
    assert r !in w.routes;
    assert forall x :: x in taken <==> x in w.routes || x == r;
  }

  /** The walk with one more route taken. */
  function Taken(w: Walk, r: Route): Walk {
    w.(seen := w.seen + {r.id}, routes := w.routes + [r])
  }

  lemma TakeOldRoute(source: nat, known: map<nat, Node>, routes: seq<Route>, w: Walk, level: map<nat, nat>, r: Route)
    requires Looking(source, known, routes, w, level, r.source)
    requires r in routes && r.id !in w.seen && (r.target in w.visited || r.target !in known)
    ensures Looking(source, known, routes, Taken(w, r), level, r.source)
  {
    TakeKnown(known, routes, w, level, r);
    SameNodes(source, Open(routes, known.Keys), known, w, Taken(w, r), level);
    hide NodesOk, RoutesOk;
  }

  lemma TakeNewRoute(source: nat, known: map<nat, Node>, routes: seq<Route>, w: Walk, level: map<nat, nat>, r: Route)
    requires Looking(source, known, routes, w, level, r.source)
    requires r in routes && r.id !in w.seen && r.target in known && r.target !in w.visited && known[r.target].id == r.target
    ensures Looking(source, known, routes, Met(Taken(w, r), r.target, known), level[r.target := level[r.source] + 1], r.source)
  {
    var edges := Open(routes, known.Keys);
    assert level.Keys == w.visited;
    SameNodes(source, edges, known, w, Taken(w, r), level);
    assert r in edges;
    FollowedMore(routes, w, level, r, known);
    hide NodesOk, Followed, Within;
    assert Frontier(Taken(w, r), level, r.source);
    MeetNode(source, edges, known, Taken(w, r), level, r);
    MeetRoutes(routes, known, w, level, r);
  }

  lemma FollowedMore(routes: seq<Route>, w: Walk, level: map<nat, nat>, r: Route, known: map<nat, Node>)
    requires Followed(routes, w, {r.source}) && Frontier(w, level, r.source) && r.target in known && r.target !in level
    ensures Followed(routes, Met(Taken(w, r), r.target, known), {r.source})
    ensures Frontier(Met(Taken(w, r), r.target, known), level[r.target := level[r.source] + 1], r.source)
  {
    var next := Met(Taken(w, r), r.target, known);
    assert forall n :: n in next.queue <==> n in w.queue || n == r.target;
    assert w.routes <= next.routes;
  }

  /** Looks along every route that leaves curr. */
  method Follow(source: nat, known: map<nat, Node>, routes: seq<Route>, curr: nat, out: seq<Route>, w: Walk, ghost level: map<nat, nat>)
    returns (w': Walk, ghost level': map<nat, nat>)
    requires IdsNameRoutes(routes) && forall n | n in known :: known[n].id == n
    requires Looking(source, known, routes, w, level, curr) && curr in level && out == From(routes, curr)
    ensures Walked(source, known, routes, w', level')
    ensures w.visited <= w'.visited && (w'.visited == w.visited ==> w'.queue == w.queue)
  {
    w', level' := w, level;
    hide Looking, Walked;
    for i := 0 to |out|
      invariant Looking(source, known, routes, w', level', curr) && curr in level'
      invariant forall j | 0 <= j < i :: out[j] in w'.routes
      invariant w.visited <= w'.visited && (w'.visited == w.visited ==> w'.queue == w.queue)
    {
      var r := out[i];
      assert r in out && r in routes && r.source == curr;
      if r.id in w'.seen {
        SeenMeansTaken(source, known, routes, w', level', r);
      } else if r.target in w'.visited || r.target !in known {
        TakeOldRoute(source, known, routes, w', level', r);
        w' := w'.(seen := w'.seen + {r.id}, routes := w'.routes + [r]);
      } else {
        TakeNewRoute(source, known, routes, w', level', r);
        w', level' := Met(Taken(w', r), r.target, known), level'[r.target := level'[curr] + 1];
      }
    }
    AllFollowed(source, known, routes, w', level', curr);
  }

  lemma AllFollowed(source: nat, known: map<nat, Node>, routes: seq<Route>, w: Walk, level: map<nat, nat>, curr: nat)
    requires Looking(source, known, routes, w, level, curr) && forall r | r in routes && r.source == curr :: r in w.routes
    ensures Walked(source, known, routes, w, level)
  {
    hide NodesOk, RoutesOk;
    assert w.queue != [] ==> w.queue[0] in w.queue;
  }

  lemma SeenMeansTaken(source: nat, known: map<nat, Node>, routes: seq<Route>, w: Walk, level: map<nat, nat>, r: Route)
    requires Looking(source, known, routes, w, level, r.source) && IdsNameRoutes(routes) && r in routes && r.id in w.seen
    ensures r in w.routes
  {
    hide NodesOk;
  }

  lemma SameNodes(source: nat, edges: set<Route>, known: map<nat, Node>, w: Walk, v: Walk, level: map<nat, nat>)
    requires NodesOk(source, edges, known, w, level) && v.nodes == w.nodes && v.visited == w.visited && v.queue == w.queue
    ensures NodesOk(source, edges, known, v, level)
  {
    hide Within;
  }

  /** The answer: the listed nodes that can be reached from the source, itself excepted, nearest first, and the routes
      that leave any node reached. */
  ghost predicate DownstreamOf(source: nat, nodes: seq<Node>, routes: seq<Route>, targetRoutes: seq<Route>, targetNodes: seq<Node>) {
    var known := NodeMap(nodes);
    var edges := Open(routes, known.Keys);
    && (forall n: nat :: n in Ids(targetNodes) <==> n != source && Reachable(edges, source, n))
    && (forall n | n in targetNodes :: n.id in known && n == known[n.id])
    && Distinct(Ids(targetNodes))
    && (forall i, j, k: nat | 0 <= i < j < |targetNodes| && Within(edges, source, targetNodes[j].id, k) ::
          Within(edges, source, targetNodes[i].id, k))
    && (forall r :: r in targetRoutes <==> r in routes && Reachable(edges, source, r.source))
    && Distinct(targetRoutes)
  }

  lemma {:induction false} NodeMapKeys(nodes: seq<Node>)
    ensures forall n | n in NodeMap(nodes) :: NodeMap(nodes)[n].id == n && NodeMap(nodes)[n] in nodes
  {
    if nodes != [] {
      NodeMapKeys(nodes[..|nodes| - 1]);
    }
  }

  /** What has been met is exactly what can be reached, and its levels are the distances. */
  lemma MetIsReachable(source: nat, edges: set<Route>, known: map<nat, Node>, routes: seq<Route>, w: Walk, level: map<nat, nat>)
    requires edges == Open(routes, known.Keys)
    requires NodesOk(source, edges, known, w, level) && RoutesOk(routes, known.Keys, w, level)
    requires Followed(routes, w, {}) && w.queue == []
    ensures forall n: nat :: n in w.visited <==> Reachable(edges, source, n)
    ensures forall n: nat, k: nat | Within(edges, source, n, k) :: n in level && level[n] <= k
  {
    hide Within;
    assert Closed(edges, level) by {
      forall r | r in edges && r.source in level ensures r.target in level && level[r.target] <= level[r.source] + 1 {
        assert r in w.routes;
      }
    }
    forall n: nat, k: nat | Within(edges, source, n, k) ensures n in level && level[n] <= k {
      ClosedHasAll(edges, level, source, n, k);
    }
  }

  method DownstreamFromSource(source: nat, nodes: seq<Node>, routes: seq<Route>) returns (targetRoutes: seq<Route>, targetNodes: seq<Node>)
    requires IdsNameRoutes(routes)
    ensures source == 0 || routes == [] || source !in NodeMap(nodes) ==> targetRoutes == [] && targetNodes == []
    ensures source != 0 && routes != [] && source in NodeMap(nodes) ==> DownstreamOf(source, nodes, routes, targetRoutes, targetNodes)
  {
    if source == 0 || routes == [] { return [], []; }
    var known := BuildNodeMap(nodes);
    NodeMapKeys(nodes);
    if source !in known { return [], []; }
    ghost var level;
    var w;
    w, level := Search(source, known, routes);
    Answer(source, nodes, routes, w, level);
    return w.routes, w.nodes;
  }

  /** The search proper; it ends on cyclic landscapes too. */
  method Search(source: nat, known: map<nat, Node>, routes: seq<Route>) returns (w: Walk, ghost level: map<nat, nat>)
    requires IdsNameRoutes(routes) && source in known && forall n | n in known :: known[n].id == n
    ensures Walked(source, known, routes, w, level) && w.queue == []
  {
    hide *;
    var adj := BuildAdjacency(routes);
    level := map[source := 0];
    w := Walk({source}, {}, [], [], [source]);
    StartOk(source, known, routes);
    while w.queue != []
      invariant Walked(source, known, routes, w, level) && w.visited <= known.Keys
      decreases known.Keys - w.visited, |w.queue|
    {
      var curr := w.queue[0];
      PopOk(source, known, routes, w, level);
      w := w.(queue := w.queue[1..]);
      var out := if curr in adj then adj[curr] else [];
      OutIsFrom(adj, routes, curr);
      w, level := Follow(source, known, routes, curr, out, w, level);
      VisitedKnown(source, known, routes, w, level);
    }
  }

  lemma OutIsFrom(adj: map<nat, seq<Route>>, routes: seq<Route>, n: nat)
    requires IsAdjacency(adj, routes)
    ensures (if n in adj then adj[n] else []) == From(routes, n)
  {
  }

  lemma VisitedKnown(source: nat, known: map<nat, Node>, routes: seq<Route>, w: Walk, level: map<nat, nat>)
    requires Walked(source, known, routes, w, level)
    ensures w.visited <= known.Keys
  {
  }

  lemma StartOk(source: nat, known: map<nat, Node>, routes: seq<Route>)
    requires source in known
    ensures Walked(source, known, routes, Walk({source}, {}, [], [], [source]), map[source := 0])
  {
    assert Order(source, []) == [source];
    assert Within(Open(routes, known.Keys), source, source, 0);
  }

  lemma PopNodes(source: nat, edges: set<Route>, known: map<nat, Node>, w: Walk, level: map<nat, nat>)
    requires NodesOk(source, edges, known, w, level) && w.queue != []
    ensures NodesOk(source, edges, known, w.(queue := w.queue[1..]), level)
    ensures w.queue[0] in level && w.queue[0] !in w.queue[1..]
    ensures forall n | n in w.queue :: n in level && level[w.queue[0]] <= level[n]
  {
    hide Within;
    var order := Order(source, w.nodes);
    var at := |order| - |w.queue|;
    assert forall i | 0 <= i < |w.queue| :: w.queue[i] == order[at + i];
    hide Order;
    assert order[at] in order;
    forall i | 0 <= i < |w.queue| ensures w.queue[i] in level && level[w.queue[0]] <= level[w.queue[i]] {
      assert order[at + i] in order;
    }
  }

  lemma PopOk(source: nat, known: map<nat, Node>, routes: seq<Route>, w: Walk, level: map<nat, nat>)
    requires Walked(source, known, routes, w, level) && w.queue != []
    ensures Looking(source, known, routes, w.(queue := w.queue[1..]), level, w.queue[0]) && w.queue[0] in level
  {
    PopNodes(source, Open(routes, known.Keys), known, w, level);
    hide NodesOk;
    assert forall n :: n in w.queue <==> n == w.queue[0] || n in w.queue[1..];
  }

  lemma OrderParts(source: nat, nodes: seq<Node>)
    ensures |Order(source, nodes)| == |nodes| + 1 && Order(source, nodes)[0] == source
    ensures forall i | 0 <= i < |nodes| :: Order(source, nodes)[i + 1] == nodes[i].id
  {
  }

  lemma InOrder(order: seq<nat>, level: map<nat, nat>, i: nat, j: nat)
    requires Layered(order, level) && i < j < |order|
    ensures order[i] in level && order[j] in level && level[order[i]] <= level[order[j]] && order[i] != order[j]
  {
    assert order[i] in order && order[j] in order;
  }

  lemma AtOrder(order: seq<nat>, level: map<nat, nat>, n: nat) returns (i: nat)
    requires Layered(order, level) && n in level
    ensures i < |order| && order[i] == n
  {
    i :| 0 <= i < |order| && order[i] == n;
  }

  lemma AnswerNodes(source: nat, nodes: seq<Node>, level: map<nat, nat>)
    requires Layered(Order(source, nodes), level)
    ensures forall n: nat :: n in Ids(nodes) <==> n != source && n in level
    ensures Distinct(Ids(nodes))
    ensures forall i, j | 0 <= i < j < |nodes| :: nodes[i].id in level && nodes[j].id in level && level[nodes[i].id] <= level[nodes[j].id]
  {
    var order := Order(source, nodes);
    OrderParts(source, nodes);
    hide Order, Layered;
    forall n: nat ensures n in Ids(nodes) <==> n != source && n in level {
      if n in Ids(nodes) {
        var i :| 0 <= i < |nodes| && Ids(nodes)[i] == n;
        InOrder(order, level, 0, i + 1);
      }
      if n in level && n != source {
        var i := AtOrder(order, level, n);
        assert Ids(nodes)[i - 1] == n;
      }
    }
    forall i, j | 0 <= i < j < |nodes|
      ensures nodes[i].id in level && nodes[j].id in level && level[nodes[i].id] <= level[nodes[j].id] && nodes[i].id != nodes[j].id {
      InOrder(order, level, i + 1, j + 1);
    }
  }

  lemma Answer(source: nat, nodes: seq<Node>, routes: seq<Route>, w: Walk, level: map<nat, nat>)
    requires Walked(source, NodeMap(nodes), routes, w, level) && w.queue == []
    ensures DownstreamOf(source, nodes, routes, w.routes, w.nodes)
  {
    var edges := Open(routes, NodeMap(nodes).Keys);
    MetIsReachable(source, edges, NodeMap(nodes), routes, w, level);
    AnswerNodes(source, w.nodes, level);
    assert forall n | n in level :: Within(edges, source, n, level[n]);
    assert forall r :: r in w.routes <==> r in routes && r.source in w.visited;
    assert Distinct(w.routes);
    hide NodeMap, Within, Reachable, NodesOk, RoutesOk, Walked;
    forall i, j, k: nat | 0 <= i < j < |w.nodes| && Within(edges, source, w.nodes[j].id, k) ensures Within(edges, source, w.nodes[i].id, k) {
      WithinMore(edges, source, w.nodes[i].id, level[w.nodes[i].id], k);
    }
  }
}
