/** The relationship view of the graph workbench: adjacency lists, connected components, distances and the two
    layout branches. Comparators are parameters: any function that rearranges a list. */
module GraphWorkbench {
  import opened ChainWalk
  import opened Distances
  import opened Lists
  import opened Sorting

  datatype Node = Node(nodeId: string, nodeType: string, name: string, isOrphan: bool)
  datatype Edge = Edge(source: string, target: string)

  type Lookup = map<string, seq<string>>

  function Ids(nodes: seq<Node>): (s: set<string>)
    ensures forall v :: v in s <==> exists n :: n in nodes && n.nodeId == v
  {
    set n | n in nodes :: n.nodeId
  }

  /** The adjacency lists as sets, for talking about walks. */
  ghost function Steps(adjacency: Lookup): (adj: Adjacency)
    ensures adj.Keys == adjacency.Keys
    ensures forall u, v :: v in Succ(adj, u) <==> u in adjacency && v in adjacency[u]
  {
    if adjacency == map[] then map[]
    else
      var u :| u in adjacency;
      Steps(adjacency - {u})[u := Elements(adjacency[u])]
  }

  ghost predicate VisibleLink(edges: seq<Edge>, ids: set<string>, u: string, v: string) {
    u in ids && v in ids && exists e :: e in edges && ((e.source == u && e.target == v) || (e.source == v && e.target == u))
  }

  /** How many ends visible edges have at a node: two for a loop. */
  function EdgeEnds(edges: seq<Edge>, ids: set<string>, u: string): nat {
    if edges == [] then 0
    else EdgeEnds(edges[..|edges| - 1], ids, u) + EndsAt(edges[|edges| - 1], ids, u)
  }

  function EndsAt(e: Edge, ids: set<string>, u: string): nat {
    if e.source in ids && e.target in ids then (if e.source == u then 1 else 0) + (if e.target == u then 1 else 0) else 0
  }

  lemma EdgeEndsSnoc(edges: seq<Edge>, e: Edge, ids: set<string>, u: string)
    ensures EdgeEnds(edges + [e], ids, u) == EdgeEnds(edges, ids, u) + EndsAt(e, ids, u)
  {
    assert (edges + [e])[..|edges|] == edges;
  }

  /** Adjacency lists and degrees of the visible edges. */
  ghost predicate GraphMaps(ids: set<string>, edges: seq<Edge>, degree: map<string, nat>, adjacency: Lookup) {
    && degree.Keys == ids && adjacency.Keys == ids
    && (forall u, v :: u in ids ==> (v in adjacency[u] <==> VisibleLink(edges, ids, u, v)))
    && forall u :: u in ids ==> degree[u] == |adjacency[u]| == EdgeEnds(edges, ids, u)
  }

  function Push(adjacency: Lookup, u: string, v: string): (r: Lookup)
    requires u in adjacency
    ensures r.Keys == adjacency.Keys
    ensures forall a, b :: a in adjacency ==> (b in r[a] <==> b in adjacency[a] || (a == u && b == v))
    ensures forall a :: a in adjacency ==> |r[a]| == |adjacency[a]| + if a == u then 1 else 0
  {
    adjacency[u := adjacency[u] + [v]]
  }

  lemma VisibleLinkSnoc(edges: seq<Edge>, e: Edge, ids: set<string>, u: string, v: string)
    ensures VisibleLink(edges + [e], ids, u, v) <==>
              VisibleLink(edges, ids, u, v)
              || (u in ids && v in ids && ((e.source == u && e.target == v) || (e.source == v && e.target == u)))
  {
    if VisibleLink(edges, ids, u, v) {
      var q :| q in edges && ((q.source == u && q.target == v) || (q.source == v && q.target == u));
      assert q in edges + [e];
    }
    assert e in edges + [e];
  }

  /** One edge with both ends visible. */
  lemma GraphMapsSnoc(ids: set<string>, edges: seq<Edge>, e: Edge, degree: map<string, nat>, adjacency: Lookup)
    requires GraphMaps(ids, edges, degree, adjacency) && e.source in ids && e.target in ids
    ensures var once := Push(adjacency, e.source, e.target);
            var d := degree[e.source := degree[e.source] + 1];
            GraphMaps(ids, edges + [e], d[e.target := d[e.target] + 1], Push(once, e.target, e.source))
  {
    var twice := Push(Push(adjacency, e.source, e.target), e.target, e.source);
    forall u, v | u in ids ensures v in twice[u] <==> VisibleLink(edges + [e], ids, u, v) {
      VisibleLinkSnoc(edges, e, ids, u, v);
    }
    DegreeSnoc(ids, edges, e, degree);
  }

  lemma DegreeSnoc(ids: set<string>, edges: seq<Edge>, e: Edge, degree: map<string, nat>)
    requires degree.Keys == ids && (forall u :: u in ids ==> degree[u] == EdgeEnds(edges, ids, u)) && e.source in ids && e.target in ids
    ensures var d := degree[e.source := degree[e.source] + 1];
            forall u :: u in ids ==> d[e.target := d[e.target] + 1][u] == EdgeEnds(edges + [e], ids, u)
  {
    forall u | u in ids ensures EdgeEnds(edges + [e], ids, u) == degree[u] + EndsAt(e, ids, u) {
      EdgeEndsSnoc(edges, e, ids, u);
    }
  }

  lemma GraphMapsSkip(ids: set<string>, edges: seq<Edge>, e: Edge, degree: map<string, nat>, adjacency: Lookup)
    requires GraphMaps(ids, edges, degree, adjacency) && !(e.source in ids && e.target in ids)
    ensures GraphMaps(ids, edges + [e], degree, adjacency)
  {
    forall u, v | u in ids ensures v in adjacency[u] <==> VisibleLink(edges + [e], ids, u, v) {
      VisibleLinkSnoc(edges, e, ids, u, v);
    }
    forall u | u in ids ensures EdgeEnds(edges + [e], ids, u) == EdgeEnds(edges, ids, u) {
      EdgeEndsSnoc(edges, e, ids, u);
    }
  }

  /** `new Map(nodes.map((node) => [node.node_id, 0]))`, and the same with empty lists */
  method EmptyMaps(nodes: seq<Node>) returns (degree: map<string, nat>, adjacency: Lookup)
    ensures GraphMaps(Ids(nodes), [], degree, adjacency)
  {
    degree, adjacency := map[], map[];
    for i := 0 to |nodes|
      invariant degree.Keys == adjacency.Keys == Ids(nodes[..i])
      invariant forall v :: v in degree ==> degree[v] == 0 && adjacency[v] == []
    {
      assert nodes[..i + 1] == nodes[..i] + [nodes[i]];
      degree, adjacency := degree[nodes[i].nodeId := 0], adjacency[nodes[i].nodeId := []];
    }
    assert nodes[..|nodes|] == nodes;
  }

  method BuildGraphMaps(nodes: seq<Node>, edges: seq<Edge>) returns (degree: map<string, nat>, adjacency: Lookup)
    ensures GraphMaps(Ids(nodes), edges, degree, adjacency)
  {
    var ids := Ids(nodes);
    degree, adjacency := EmptyMaps(nodes);
    for i := 0 to |edges|
      invariant GraphMaps(ids, edges[..i], degree, adjacency)
    {
      var edge := edges[i];
      assert edges[..i + 1] == edges[..i] + [edge];
      if edge.source in degree && edge.target in degree {
        GraphMapsSnoc(ids, edges[..i], edge, degree, adjacency);
        degree := degree[edge.source := degree[edge.source] + 1];
        degree := degree[edge.target := degree[edge.target] + 1];
        adjacency := Push(adjacency, edge.source, edge.target);
        adjacency := Push(adjacency, edge.target, edge.source);
      } else {
        GraphMapsSkip(ids, edges[..i], edge, degree, adjacency);
      }
    }
    assert edges[..|edges|] == edges;
  }

  /** Every listed neighbour is a node, and listing is mutual. */
  ghost predicate Mutual(adjacency: Lookup) {
    forall u, v :: u in adjacency && v in adjacency[u] ==> v in adjacency && u in adjacency[v]
  }

  lemma GraphMapsMutual(ids: set<string>, edges: seq<Edge>, degree: map<string, nat>, adjacency: Lookup)
    requires GraphMaps(ids, edges, degree, adjacency)
    ensures Mutual(adjacency)
  {
    forall u, v | u in adjacency && v in adjacency[u] ensures v in adjacency && u in adjacency[v] {
      assert VisibleLink(edges, ids, u, v) && VisibleLink(edges, ids, v, u);
    }
  }

  ghost predicate Closed(adjacency: Lookup, s: set<string>) {
    s <= adjacency.Keys && forall u, v :: u in s && v in adjacency[u] ==> v in s
  }

  lemma {:induction false} ClosedTrapsWalks(adjacency: Lookup, s: set<string>, p: seq<string>)
    requires Closed(adjacency, s) && IsWalk(Steps(adjacency), p) && p[0] in s
    ensures p[|p| - 1] in s
  {
    if |p| > 1 {
      var q := p[..|p| - 1];
      assert IsWalk(Steps(adjacency), q);
      ClosedTrapsWalks(adjacency, s, q);
      assert p[|p| - 1] in Succ(Steps(adjacency), p[|p| - 2]);
    }
  }

  lemma ClosedTraps(adjacency: Lookup, s: set<string>, a: string, b: string)
    requires Closed(adjacency, s) && a in s && Reaches(Steps(adjacency), a, b)
    ensures b in s
  {
    var p :| WalkBetween(Steps(adjacency), a, b, p);
    ClosedTrapsWalks(adjacency, s, p);
  }

  lemma ReachesNext(adj: Adjacency, a: string, u: string, w: string)
    requires Reaches(adj, a, u) && w in Succ(adj, u)
    ensures Reaches(adj, a, w)
  {
    var p :| WalkBetween(adj, a, u, p);
    assert WalkBetween(adj, a, w, p + [w]);
  }

  lemma ReachesSelf(adj: Adjacency, a: string)
    ensures Reaches(adj, a, a)
  {
    assert WalkBetween(adj, a, a, [a]);
  }

  ghost predicate IsComponent(adjacency: Lookup, root: string, members: set<string>) {
    forall v {:trigger Reaches(Steps(adjacency), root, v)} :: v in members <==> Reaches(Steps(adjacency), root, v)
  }

  // ---- connected components ----

  ghost predicate Distinct(xs: seq<string>) {
    forall i, j :: 0 <= i < j < |xs| ==> xs[i] != xs[j]
  }

  /** The search for one component: `found` is everything visited since its root, `queue` the part of it whose
      neighbours are still to be looked at, `members` the part already taken off the queue. */
  ghost predicate Searching(adjacency: Lookup, root: string, before: set<string>, found: set<string>,
                            queue: seq<string>, members: seq<string>) {
    && found <= adjacency.Keys && found !! before && root in found
    && (forall v :: v in found <==> v in queue || v in members)
    && Distinct(members + queue)
    && (forall v :: v in found ==> Reaches(Steps(adjacency), root, v))
    && (forall u, v :: u in members && v in adjacency[u] ==> v in found)
  }

  lemma SearchPop(adjacency: Lookup, root: string, before: set<string>, found: set<string>, queue: seq<string>,
                  members: seq<string>, more: set<string>, newly: seq<string>)
    requires Searching(adjacency, root, before, found, queue, members) && queue != []
    requires found <= more <= adjacency.Keys && more !! before
    requires forall v :: v in more <==> v in found || v in newly
    requires Distinct(newly) && forall v :: v in newly ==> v !in found && v in adjacency[queue[0]]
    requires forall v :: v in adjacency[queue[0]] ==> v in more
    ensures Searching(adjacency, root, before, more, queue[1..] + newly, members + [queue[0]])
  {
    var node := queue[0];
    assert queue == [node] + queue[1..];
    var q, m := queue[1..] + newly, members + [node];
    forall v ensures v in more <==> v in q || v in m { assert v in queue <==> v == node || v in queue[1..]; }
    assert m + q == (members + queue) + newly;
    var all := members + queue;
    forall i, j | 0 <= i < j < |all + newly| ensures (all + newly)[i] != (all + newly)[j] {
      if i < |all| <= j {
        assert all[i] in members || all[i] in queue;
        assert newly[j - |all|] in newly;
      }
    }
    forall v | v in more ensures Reaches(Steps(adjacency), root, v) {
      if v !in found { ReachesNext(Steps(adjacency), root, node, v); }
    }
    forall u, v | u in m && v in adjacency[u] ensures v in more { assert u in members || u == node; }
  }

  lemma SearchDone(adjacency: Lookup, root: string, before: set<string>, found: set<string>, members: seq<string>)
    requires Searching(adjacency, root, before, found, [], members)
    ensures IsComponent(adjacency, root, found) && Closed(adjacency, found)
  {
    forall v | Reaches(Steps(adjacency), root, v) ensures v in found { ClosedTraps(adjacency, found, root, v); }
  }

  /** `adjacency.get(current).forEach(...)`: what was not visited yet is visited and queued once. */
  method VisitNeighbors(neighbors: seq<string>, visited0: set<string>) returns (visited: set<string>, newly: seq<string>)
    ensures forall v :: v in visited <==> v in visited0 || v in neighbors
    ensures forall v :: v in visited <==> v in visited0 || v in newly
    ensures Distinct(newly) && forall v :: v in newly ==> v !in visited0 && v in neighbors
  {
    visited, newly := visited0, [];
    for i := 0 to |neighbors|
      invariant forall v :: v in visited <==> v in visited0 || v in neighbors[..i]
      invariant forall v :: v in visited <==> v in visited0 || v in newly
      invariant Distinct(newly) && forall v :: v in newly ==> v !in visited0 && v in neighbors
    {
      assert neighbors[..i + 1] == neighbors[..i] + [neighbors[i]];
      if neighbors[i] !in visited {
        visited := visited + {neighbors[i]};
        newly := newly + [neighbors[i]];
      }
    }
    assert neighbors[..|neighbors|] == neighbors;
  }

  ghost predicate Named(nodeById: map<string, Node>, members: seq<Node>, ids: seq<string>) {
    |members| == |ids| && forall i :: 0 <= i < |ids| ==> ids[i] in nodeById && members[i] == nodeById[ids[i]]
  }

  lemma NamedIds(nodeById: map<string, Node>, members: seq<Node>, ids: seq<string>)
    requires Named(nodeById, members, ids) && forall v :: v in nodeById ==> nodeById[v].nodeId == v
    ensures Ids(members) == Elements(ids)
  {
    forall v | v in ids ensures v in Ids(members) {
      var i :| 0 <= i < |ids| && ids[i] == v;
      assert members[i] in members;
    }
  }

  ghost predicate NoRepeats(members: seq<Node>) {
    forall i, j :: 0 <= i < j < |members| ==> members[i].nodeId != members[j].nodeId
  }

  /** What the queue holds is a known node that was not searched yet. */
  lemma QueueHead(adjacency: Lookup, root: string, before: set<string>, found: set<string>, queue: seq<string>, ids: seq<string>)
    requires Searching(adjacency, root, before, found, queue, ids) && queue != []
    ensures queue[0] in found && queue[0] in adjacency && queue[0] !in ids
  {
    assert queue[0] == (ids + queue)[|ids|];
    assert forall i :: 0 <= i < |ids| ==> ids[i] == (ids + queue)[i];
  }

  lemma ElementsSnoc(ids: seq<string>, id: string)
    ensures Elements(ids + [id]) == Elements(ids) + {id}
  {
  }

  lemma NeighborsOutside(adjacency: Lookup, before: set<string>, current: string)
    requires Mutual(adjacency) && Closed(adjacency, before) && current in adjacency && current !in before
    ensures forall v :: v in adjacency[current] ==> v !in before && v in adjacency
  {
    forall v | v in adjacency[current] ensures v !in before && v in adjacency {
      assert current in adjacency[v];
    }
  }

  /** One node is taken from the queue and its unvisited neighbours are queued. */
  method SearchNode(nodeById: map<string, Node>, adjacency: Lookup, root: string, before: set<string>, visited0: set<string>,
                    queue0: seq<string>, members0: seq<Node>, ghost found0: set<string>, ghost ids0: seq<string>)
    returns (visited: set<string>, queue: seq<string>, members: seq<Node>, ghost found: set<string>, ghost ids: seq<string>)
    requires nodeById.Keys == adjacency.Keys && Mutual(adjacency) && Closed(adjacency, before)
    requires queue0 != [] && visited0 == before + found0
    requires Searching(adjacency, root, before, found0, queue0, ids0) && Named(nodeById, members0, ids0)
    ensures visited == before + found
    ensures Searching(adjacency, root, before, found, queue, ids) && Named(nodeById, members, ids)
    ensures ids == ids0 + [queue0[0]] && queue0[0] in adjacency && queue0[0] !in ids0
  {
    var current := queue0[0];
    QueueHead(adjacency, root, before, found0, queue0, ids0);
    NeighborsOutside(adjacency, before, current);
    members := members0 + [nodeById[current]];
    var newly;
    visited, newly := VisitNeighbors(adjacency[current], visited0);
    found := found0 + Elements(newly);
    SearchPop(adjacency, root, before, found0, queue0, ids0, found, newly);
    ids := ids0 + [current];
    queue := queue0[1..] + newly;
  }

  lemma Fewer(nodes: set<string>, ids: seq<string>, id: string)
    requires id in nodes && id !in ids
    ensures nodes - Elements(ids + [id]) < nodes - Elements(ids)
  {
    ElementsSnoc(ids, id);
    assert id in nodes - Elements(ids) && id !in nodes - Elements(ids + [id]);
  }

  method SearchComponent(nodeById: map<string, Node>, adjacency: Lookup, root: string, before: set<string>)
    returns (members: seq<Node>, visited: set<string>)
    requires nodeById.Keys == adjacency.Keys && forall v :: v in nodeById ==> nodeById[v].nodeId == v
    requires Mutual(adjacency) && Closed(adjacency, before)
    requires root in adjacency && root !in before
    ensures IsComponent(adjacency, root, Ids(members)) && Closed(adjacency, Ids(members))
    ensures visited == before + Ids(members) && Ids(members) !! before && NoRepeats(members)
  {
    var queue := [root];
    members, visited := [], before + {root};
    ghost var ids: seq<string> := [];
    ghost var found: set<string> := {root};
    ReachesSelf(Steps(adjacency), root);
    while queue != []
      invariant visited == before + found
      invariant Searching(adjacency, root, before, found, queue, ids) && Named(nodeById, members, ids)
      decreases adjacency.Keys - Elements(ids)
    {
      ghost var searched, current := ids, queue[0];
      visited, queue, members, found, ids := SearchNode(nodeById, adjacency, root, before, visited, queue, members, found, ids);
      Fewer(adjacency.Keys, searched, current);
    }
    ComponentFound(nodeById, adjacency, root, before, found, members, ids);
  }

  lemma ComponentFound(nodeById: map<string, Node>, adjacency: Lookup, root: string, before: set<string>,
                       found: set<string>, members: seq<Node>, ids: seq<string>)
    requires Searching(adjacency, root, before, found, [], ids) && Named(nodeById, members, ids)
    requires forall v :: v in nodeById ==> nodeById[v].nodeId == v
    ensures Ids(members) == found && NoRepeats(members)
    ensures IsComponent(adjacency, root, found) && Closed(adjacency, found)
  {
    SearchDone(adjacency, root, before, found, ids);
    NamedIds(nodeById, members, ids);
    assert ids + [] == ids;
  }

  /** The components: disjoint, closed under visible edges, and connected inside. */
  ghost predicate Split(adjacency: Lookup, components: seq<seq<Node>>, covered: set<string>) {
    && covered <= adjacency.Keys
    && (forall v :: v in covered <==> exists i :: 0 <= i < |components| && v in Ids(components[i]))
    && (forall i :: 0 <= i < |components| ==>
          NoRepeats(components[i]) && Closed(adjacency, Ids(components[i])) && exists r :: IsComponent(adjacency, r, Ids(components[i])))
    && (forall i, j :: 0 <= i < j < |components| ==> Ids(components[i]) !! Ids(components[j]))
  }

  lemma SplitSnoc(adjacency: Lookup, components: seq<seq<Node>>, covered: set<string>, members: seq<Node>, root: string)
    requires Split(adjacency, components, covered)
    requires NoRepeats(members) && Closed(adjacency, Ids(members)) && IsComponent(adjacency, root, Ids(members))
    requires Ids(members) !! covered
    ensures Split(adjacency, components + [members], covered + Ids(members))
  {
    var all := components + [members];
    forall v ensures v in covered + Ids(members) <==> exists i :: 0 <= i < |all| && v in Ids(all[i]) {
      if v in covered {
        var i :| 0 <= i < |components| && v in Ids(components[i]);
        assert all[i] == components[i];
      }
      assert all[|components|] == members;
    }
    forall i, j | 0 <= i < j < |all| ensures Ids(all[i]) !! Ids(all[j]) {
      if j == |components| {
        assert forall v :: v in Ids(components[i]) ==> v in covered;
      }
    }
  }

  lemma SplitClosed(adjacency: Lookup, components: seq<seq<Node>>, covered: set<string>)
    requires Split(adjacency, components, covered)
    ensures Closed(adjacency, covered)
  {
    forall u, v | u in covered && v in adjacency[u] ensures v in covered {
      var i :| 0 <= i < |components| && u in Ids(components[i]);
      assert v in Ids(components[i]);
    }
  }

  method AddComponent(nodeById: map<string, Node>, adjacency: Lookup, root: string, components0: seq<seq<Node>>,
                      visited0: set<string>)
    returns (components: seq<seq<Node>>, visited: set<string>)
    requires nodeById.Keys == adjacency.Keys && forall v :: v in nodeById ==> nodeById[v].nodeId == v
    requires Mutual(adjacency) && Split(adjacency, components0, visited0)
    requires root in adjacency && root !in visited0
    ensures Split(adjacency, components, visited) && visited0 + {root} <= visited
  {
    SplitClosed(adjacency, components0, visited0);
    var members;
    members, visited := SearchComponent(nodeById, adjacency, root, visited0);
    SplitSnoc(adjacency, components0, visited0, members, root);
    ReachesSelf(Steps(adjacency), root);
    components := components0 + [members];
  }

  method AddNodes(nodeById: map<string, Node>, sorted: seq<Node>, adjacency: Lookup)
    returns (components: seq<seq<Node>>, visited: set<string>)
    requires nodeById.Keys == adjacency.Keys && forall v :: v in nodeById ==> nodeById[v].nodeId == v
    requires Mutual(adjacency) && forall k :: 0 <= k < |sorted| ==> sorted[k].nodeId in adjacency
    ensures Split(adjacency, components, visited)
    ensures forall k :: 0 <= k < |sorted| ==> sorted[k].nodeId in visited
  {
    visited, components := {}, [];
    for i := 0 to |sorted|
      invariant Split(adjacency, components, visited)
      invariant forall k :: 0 <= k < i ==> sorted[k].nodeId in visited
    {
      var node := sorted[i].nodeId;
      if node !in visited {
        components, visited := AddComponent(nodeById, adjacency, node, components, visited);
      }
    }
  }

  /** `sorted` is any rearrangement of the nodes. */
  method ConnectedComponents(nodes: seq<Node>, sorted: seq<Node>, adjacency: Lookup) returns (components: seq<seq<Node>>)
    requires multiset(sorted) == multiset(nodes)
    requires adjacency.Keys == Ids(nodes) && Mutual(adjacency)
    ensures Split(adjacency, components, Ids(nodes))
  {
    var nodeById := NodesById(nodes);
    forall k | 0 <= k < |sorted| ensures sorted[k].nodeId in adjacency { SortedNodeIsNode(nodes, sorted, k); }
    var visited;
    components, visited := AddNodes(nodeById, sorted, adjacency);
    AllVisited(nodes, sorted, visited);
  }

  lemma SortedNodeIsNode(nodes: seq<Node>, sorted: seq<Node>, i: nat)
    requires multiset(sorted) == multiset(nodes) && i < |sorted|
    ensures sorted[i].nodeId in Ids(nodes)
  {
    SameMembers(sorted, nodes);
    assert sorted[i] in sorted;
  }

  lemma AllVisited(nodes: seq<Node>, sorted: seq<Node>, visited: set<string>)
    requires multiset(sorted) == multiset(nodes) && visited <= Ids(nodes)
    requires forall k :: 0 <= k < |sorted| ==> sorted[k].nodeId in visited
    ensures visited == Ids(nodes)
  {
    SameMembers(sorted, nodes);
    forall v | v in Ids(nodes) ensures v in visited {
      var n :| n in nodes && n.nodeId == v;
      assert n in sorted;
    }
  }

  /** `new Map(nodes.map((node) => [node.node_id, node]))` */
  function NodesById(nodes: seq<Node>): (m: map<string, Node>)
    ensures m.Keys == Ids(nodes)
    ensures forall v :: v in m ==> m[v] in nodes && m[v].nodeId == v
  {
    if nodes == [] then map[] else
      var last := nodes[|nodes| - 1];
      assert forall n :: n in nodes <==> n in nodes[..|nodes| - 1] || n == last;
      NodesById(nodes[..|nodes| - 1])[last.nodeId := last]
  }

  lemma ReachesBack(adjacency: Lookup, a: string, b: string)
    requires Mutual(adjacency) && Reaches(Steps(adjacency), a, b)
    ensures Reaches(Steps(adjacency), b, a)
  {
    var adj := Steps(adjacency);
    var p :| WalkBetween(adj, a, b, p);
    assert Within(adj, a, b, |p| - 1);
    WithinConverse(adj, adj, a, b, |p| - 1);
  }

  lemma ReachesThrough(adj: Adjacency, a: string, b: string, c: string)
    requires Reaches(adj, a, b) && Reaches(adj, b, c)
    ensures Reaches(adj, a, c)
  {
    var p :| WalkBetween(adj, a, b, p);
    var q :| WalkBetween(adj, b, c, q);
    var r := p + q[1..];
    forall i, j | 0 <= i < j < |r| && j == i + 1 ensures r[j] in Succ(adj, r[i]) {
      if i >= |p| - 1 {
        assert r[i] == q[i - |p| + 1] && r[j] == q[j - |p| + 1];
      }
    }
    assert r[|r| - 1] == c by { if |q| > 1 { assert r[|r| - 1] == q[|q| - 1]; } }
    assert WalkBetween(adj, a, c, r);
  }

  /** Two visible nodes share a component exactly when a path of visible edges joins them. */
  lemma ComponentsAreReachability(adjacency: Lookup, components: seq<seq<Node>>, covered: set<string>, i: nat, j: nat,
                                  a: string, b: string)
    requires Mutual(adjacency) && Split(adjacency, components, covered)
    requires i < |components| && j < |components| && a in Ids(components[i]) && b in Ids(components[j])
    ensures i == j <==> Reaches(Steps(adjacency), a, b)
  {
    if i == j {
      var r :| IsComponent(adjacency, r, Ids(components[i]));
      ReachesBack(adjacency, r, a);
      ReachesThrough(Steps(adjacency), a, r, b);
    } else {
      assert (i < j ==> Ids(components[i]) !! Ids(components[j])) && (j < i ==> Ids(components[j]) !! Ids(components[i]));
      if Reaches(Steps(adjacency), a, b) {
        ClosedTraps(adjacency, Ids(components[i]), a, b);
      }
    }
  }

  // ---- distances from the centre of the radial layout ----

  /** Without a depth cap every node taken off the queue has all its neighbours recorded. */
  ghost predicate Spread(adj: Adjacency, distances: map<string, nat>, done: set<string>, k: nat) {
    forall v :: v in done ==> v in distances && distances[v] <= k && Succ(adj, v) <= distances.Keys
  }

  lemma Uncapped(adj: Adjacency, c: string, cap: nat, bigger: nat, distances: map<string, nat>, done: set<string>, k: nat)
    requires Layered(adj, c, cap, distances, k) && cap <= bigger && Spread(adj, distances, done, k)
    ensures Layered(adj, c, bigger, distances, k) && Settled(adj, bigger, distances, done, k)
  {
  }

  lemma SpreadGrows(adj: Adjacency, distances: map<string, nat>, done: set<string>, k: nat, w: string)
    requires Spread(adj, distances, done, k) && w !in distances
    ensures Spread(adj, distances[w := k + 1], done, k)
  {
  }

  lemma SpreadNode(adj: Adjacency, distances: map<string, nat>, done: set<string>, k: nat, v: string)
    requires Spread(adj, distances, done, k) && v in distances && distances[v] <= k && Succ(adj, v) <= distances.Keys
    ensures Spread(adj, distances, done + {v}, k)
  {
  }

  lemma NothingMissing(adj: Adjacency, c: string, cap: nat, distances: map<string, nat>, k: nat, v: string)
    requires Layered(adj, c, cap, distances, k) && Spread(adj, distances, distances.Keys, k)
    ensures v in distances <==> Reaches(adj, c, v)
  {
    if v in distances {
      assert Within(adj, c, v, distances[v]);
      var p :| WalkBetween(adj, c, v, p) && |p| - 1 <= distances[v];
    } else if Reaches(adj, c, v) {
      var p :| WalkBetween(adj, c, v, p);
      assert Within(adj, c, v, |p| - 1);
      Uncapped(adj, c, cap, cap + |p|, distances, distances.Keys, k);
      Exhausted(adj, c, cap + |p|, distances, k, |p| - 1);
    }
  }

  method ReachNeighbors(ghost center: string, adjacency: Lookup, node: string, k: nat, distances0: map<string, nat>,
                        queue0: seq<Visit>, ghost done: set<string>)
    returns (distances: map<string, nat>, queue: seq<Visit>)
    requires node in adjacency && node in distances0 && distances0[node] == k
    requires Layered(Steps(adjacency), center, k + 1, distances0, k)
    requires Queued(distances0, queue0, done + {node}, k) && Spread(Steps(adjacency), distances0, done, k)
    ensures Layered(Steps(adjacency), center, k + 1, distances, k)
    ensures Queued(distances, queue, done + {node}, k) && Spread(Steps(adjacency), distances, done + {node}, k)
  {
    ghost var adj := Steps(adjacency);
    distances, queue := distances0, queue0;
    var neighbors := adjacency[node];
    for i := 0 to |neighbors|
      invariant node in distances && distances[node] == k
      invariant Layered(adj, center, k + 1, distances, k)
      invariant Queued(distances, queue, done + {node}, k) && Spread(adj, distances, done, k)
      invariant Seen(neighbors, i, distances.Keys)
    {
      var neighbor := neighbors[i];
      ghost var seen := distances.Keys;
      if neighbor !in distances {
        Discovered(adj, center, k + 1, distances, k, node, neighbor);
        Enqueue(distances, queue, done + {node}, k, neighbor);
        SpreadGrows(adj, distances, done, k, neighbor);
        distances := distances[neighbor := k + 1];
        queue := queue + [Visit(neighbor, k + 1)];
      }
      SeenNext(neighbors, i, seen, distances.Keys);
    }
    SpreadNode(adj, distances, done, k, node);
  }

  /** Exact shortest distances to exactly the nodes that can be reached. */
  method ShortestDistances(center: string, adjacency: Lookup) returns (distances: map<string, nat>)
    requires center in adjacency && Mutual(adjacency)
    ensures forall v :: v in distances <==> Reaches(Steps(adjacency), center, v)
    ensures forall v :: v in distances ==> Distance(Steps(adjacency), center, v, distances[v])
  {
    ghost var adj := Steps(adjacency);
    distances := map[center := 0];
    var queue := [Visit(center, 0)];
    ghost var done: set<string> := {};
    ghost var k: nat := 0;
    WalkStarts(adj, center, 1);
    while queue != []
      invariant Layered(adj, center, k + 1, distances, k)
      invariant Queued(distances, queue, done, k) && Spread(adj, distances, done, k)
      invariant done <= adjacency.Keys
      decreases adjacency.Keys - done
    {
      var Visit(node, depth) := queue[0];
      Dequeue(distances, queue, done, k);
      if depth == k + 1 {
        Uncapped(adj, center, k + 1, k + 2, distances, done, k);
        NextLevel(adj, center, k + 2, distances, done, k);
        k := k + 1;
      }
      ReachedIsListed(adjacency, center, k + 1, distances, k, node);
      queue := queue[1..];
      distances, queue := ReachNeighbors(center, adjacency, node, depth, distances, queue, done);
      done := done + {node};
    }
    assert Waiting(queue) == {};
    forall v ensures v in distances <==> Reaches(adj, center, v) {
      NothingMissing(adj, center, k + 1, distances, k, v);
    }
  }

  lemma ReachedIsListed(adjacency: Lookup, c: string, cap: nat, distances: map<string, nat>, k: nat, v: string)
    requires c in adjacency && Mutual(adjacency)
    requires Layered(Steps(adjacency), c, cap, distances, k) && v in distances
    ensures v in adjacency
  {
    WithinIsListed(adjacency, c, v, distances[v]);
  }

  lemma WithinIsListed(adjacency: Lookup, c: string, v: string, d: nat)
    requires c in adjacency && Mutual(adjacency) && Within(Steps(adjacency), c, v, d)
    ensures v in adjacency
  {
    assert Closed(adjacency, adjacency.Keys);
    ClosedTraps(adjacency, adjacency.Keys, c, v);
  }
}
