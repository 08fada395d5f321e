/** The undirected, hop-limited neighbourhood of a graph projection. */
module Neighborhood {
  import opened ChainWalk
  import opened Distances
  import opened Text
  import Chains = TraceabilityChain

  ghost predicate Touches(edges: seq<Chains.Edge>, u: string, v: string) {
    exists e :: e in edges && ((e.source == u && e.target == v) || (e.source == v && e.target == u))
  }

  ghost predicate UndirectedOf(adj: Adjacency, edges: seq<Chains.Edge>) {
    forall u, v :: v in Succ(adj, u) <==> Touches(edges, u, v)
  }

  /** `b` can be reached from `a` over at most `n` edges, ignoring their direction. */
  ghost predicate Near(edges: seq<Chains.Edge>, a: string, b: string, n: nat) {
    exists adj :: UndirectedOf(adj, edges) && Within(adj, a, b, n)
  }

  lemma NearIn(adj: Adjacency, edges: seq<Chains.Edge>, a: string, b: string, n: nat)
    requires UndirectedOf(adj, edges)
    ensures Near(edges, a, b, n) <==> Within(adj, a, b, n)
  {
    if Near(edges, a, b, n) {
      var other :| UndirectedOf(other, edges) && Within(other, a, b, n);
      assert forall u, v :: v in Succ(other, u) <==> Touches(edges, u, v);
      WithinDependsOnSteps(other, adj, a, b, n);
    }
  }

  method BuildUndirected(edges: seq<Chains.Edge>) returns (adj: Adjacency)
    ensures UndirectedOf(adj, edges)
  {
    adj := map[];
    for i := 0 to |edges|
      invariant UndirectedOf(adj, edges[..i])
    {
      ghost var before := adj;
      adj := Chains.Link(adj, edges[i].source, edges[i].target);
      adj := Chains.Link(adj, edges[i].target, edges[i].source);
      assert edges[..i + 1] == edges[..i] + [edges[i]];
      forall u, v ensures v in Succ(adj, u) <==> Touches(edges[..i + 1], u, v) {
        TouchesSnoc(edges[..i], edges[i], u, v);
        assert v in Succ(before, u) <==> Touches(edges[..i], u, v);
      }
    }
    assert edges[..|edges|] == edges;
  }

  lemma TouchesSnoc(edges: seq<Chains.Edge>, e: Chains.Edge, u: string, v: string)
    ensures Touches(edges + [e], u, v) <==>
            Touches(edges, u, v) || (e.source == u && e.target == v) || (e.source == v && e.target == u)
  {
    if Touches(edges, u, v) {
      var q :| q in edges && ((q.source == u && q.target == v) || (q.source == v && q.target == u));
      assert q in edges + [e];
    }
    assert e in edges + [e];
  }

  /** One node's neighbours, met in an arbitrary order. */
  method ExpandAnyOrder(ghost center: string, adj: Adjacency, ghost hops: nat, node: string, k: nat,
                        ghost depths0: map<string, nat>, seen0: set<string>, queue0: seq<Visit>, ghost done: set<string>)
    returns (seen: set<string>, queue: seq<Visit>, ghost depths: map<string, nat>)
    requires seen0 == depths0.Keys && node in depths0 && depths0[node] == k < hops
    requires Layered(adj, center, hops, depths0, k)
    requires Queued(depths0, queue0, done + {node}, k) && Settled(adj, hops, depths0, done, k)
    ensures seen == depths.Keys && Layered(adj, center, hops, depths, k)
    ensures Queued(depths, queue, done + {node}, k) && Settled(adj, hops, depths, done + {node}, k)
  {
    seen, queue, depths := seen0, queue0, depths0;
    var rest := Succ(adj, node);
    while rest != {}
      invariant rest <= Succ(adj, node) <= rest + seen
      invariant seen == depths.Keys && node in depths && depths[node] == k
      invariant Layered(adj, center, hops, depths, k)
      invariant Queued(depths, queue, done + {node}, k) && Settled(adj, hops, depths, done, k)
    {
      var neighbor :| neighbor in rest;
      rest := rest - {neighbor};
      if neighbor !in seen {
        Discovered(adj, center, hops, depths, k, node, neighbor);
        Enqueue(depths, queue, done + {node}, k, neighbor);
        SettledGrows(adj, hops, depths, done, k, neighbor);
        depths := depths[neighbor := k + 1];
        seen := seen + {neighbor};
        queue := queue + [Visit(neighbor, k + 1)];
      }
    }
    SettledOnce(adj, hops, depths, done, k, node);
  }

  lemma SettledOnce(adj: Adjacency, cap: nat, selected: map<string, nat>, done: set<string>, k: nat, v: string)
    requires Settled(adj, cap, selected, done, k) && v in selected && selected[v] <= k
    requires selected[v] < cap ==> Succ(adj, v) <= selected.Keys
    ensures Settled(adj, cap, selected, done + {v}, k)
  {
  }

  /** Exactly the nodes within `hops` undirected steps, whatever the set iteration order. */
  method NeighborhoodIds(center: string, edges: seq<Chains.Edge>, hops: nat) returns (seen: set<string>)
    ensures forall v :: v in seen <==> Near(edges, center, v, hops)
  {
    var adj := BuildUndirected(edges);
    seen := {center};
    var queue := [Visit(center, 0)];
    ghost var depths := map[center := 0];
    ghost var done: set<string> := {};
    ghost var k: nat := 0;
    ghost var reach := FiniteReach(adj, center, hops);
    WalkStarts(adj, center, hops);
    while queue != []
      invariant seen == depths.Keys && Layered(adj, center, hops, depths, k)
      invariant done <= reach
      invariant Queued(depths, queue, done, k) && Settled(adj, hops, depths, done, k)
      decreases reach - done
    {
      var Visit(node, depth) := queue[0];
      Dequeue(depths, queue, done, k);
      if depth == k + 1 {
        NextLevel(adj, center, hops, depths, done, k);
        k := k + 1;
      }
      SelectedWithin(adj, center, hops, depths, k, node);
      queue := queue[1..];
      if depth < hops {
        seen, queue, depths := ExpandAnyOrder(center, adj, hops, node, depth, depths, seen, queue, done);
      } else {
        SettledOnce(adj, hops, depths, done, k, node);
      }
      done := done + {node};
    }
    assert Waiting(queue) == {};
    Exhausted(adj, center, hops, depths, k, hops);
    forall v ensures v in seen <==> Near(edges, center, v, hops) {
      NearIn(adj, edges, center, v, hops);
      if v in seen { SelectedWithin(adj, center, hops, depths, k, v); }
    }
  }

  /** `b` lies in the neighbourhood of `a` exactly when `a` lies in the neighbourhood of `b`. */
  lemma NeighborhoodSymmetric(edges: seq<Chains.Edge>, a: string, b: string, hops: nat)
    ensures Near(edges, a, b, hops) ==> Near(edges, b, a, hops)
  {
    if Near(edges, a, b, hops) {
      var adj :| UndirectedOf(adj, edges) && Within(adj, a, b, hops);
      forall u, v ensures v in Succ(adj, u) <==> u in Succ(adj, v) {
        assert Touches(edges, u, v) <==> Touches(edges, v, u);
      }
      WithinConverse(adj, adj, a, b, hops);
    }
  }
}
