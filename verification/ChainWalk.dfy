/** The depth-capped, node-capped walk behind a traceability chain. */
module ChainWalk {
  import opened Distances
  import opened Text

  datatype Visit = Visit(node: string, depth: nat)

  /** Every selected node carries its distance from the centre, and nothing within `k` steps is missing. */
  ghost predicate Layered(adj: Adjacency, c: string, cap: nat, selected: map<string, nat>, k: nat) {
    && c in selected
    && k <= cap
    && (forall v :: Within(adj, c, v, k) ==> v in selected)
    && (forall v :: v in selected ==>
          selected[v] <= k + 1 && selected[v] <= cap && Distance(adj, c, v, selected[v]))
  }

  ghost function Waiting(queue: seq<Visit>): set<string> {
    set i | 0 <= i < |queue| :: queue[i].node
  }

  /** The queue holds selected nodes of depth `k` and then of depth `k + 1`, each once; every other selected
      node is done. */
  ghost predicate Queued(selected: map<string, nat>, queue: seq<Visit>, done: set<string>, k: nat) {
    && (forall i :: 0 <= i < |queue| ==>
          queue[i].node in selected && selected[queue[i].node] == queue[i].depth && queue[i].depth >= k)
    && (forall i, j :: 0 <= i < j < |queue| ==> queue[i].node != queue[j].node && queue[i].depth <= queue[j].depth)
    && selected.Keys == done + Waiting(queue)
    && done !! Waiting(queue)
  }

  lemma Dequeue(selected: map<string, nat>, queue: seq<Visit>, done: set<string>, k: nat)
    requires Queued(selected, queue, done, k) && queue != []
    ensures Queued(selected, queue[1..], done + {queue[0].node}, queue[0].depth)
    ensures queue[0].node in selected && selected[queue[0].node] == queue[0].depth
    ensures queue[0].node !in done
    ensures forall v :: v in selected && selected[v] < queue[0].depth ==> v in done
  {
    assert queue[0].node in Waiting(queue);
    var rest := queue[1..];
    forall v | v in Waiting(queue) && v != queue[0].node ensures v in Waiting(rest) {
      var i :| 0 <= i < |queue| && queue[i].node == v;
      assert rest[i - 1] == queue[i];
    }
    forall v | v in Waiting(rest) ensures v in Waiting(queue) && v != queue[0].node {
      var i :| 0 <= i < |rest| && rest[i].node == v;
      assert rest[i] == queue[i + 1];
    }
    forall v | v in selected && selected[v] < queue[0].depth ensures v in done {
      assert forall i :: 0 <= i < |queue| ==> queue[i].node != v;
    }
  }

  lemma Enqueue(selected: map<string, nat>, queue: seq<Visit>, done: set<string>, k: nat, w: string)
    requires Queued(selected, queue, done, k) && w !in selected
    requires forall v :: v in selected ==> selected[v] <= k + 1
    ensures Queued(selected[w := k + 1], queue + [Visit(w, k + 1)], done, k)
  {
    var longer := queue + [Visit(w, k + 1)];
    assert longer[|queue|] == Visit(w, k + 1);
    forall v ensures v in Waiting(longer) <==> v in Waiting(queue) || v == w {
      if v in Waiting(queue) {
        var i :| 0 <= i < |queue| && queue[i].node == v;
        assert longer[i] == queue[i];
      }
    }
  }

  /** Nodes already taken off the queue: their successors are selected unless they lie at the depth cap. */
  ghost predicate Settled(adj: Adjacency, cap: nat, selected: map<string, nat>, done: set<string>, k: nat) {
    forall v :: v in done ==>
      v in selected && selected[v] <= k && (selected[v] < cap ==> Succ(adj, v) <= selected.Keys)
  }

  lemma NotDeeperThanReach(adj: Adjacency, c: string, cap: nat, selected: map<string, nat>, k: nat, v: string, m: nat)
    requires Layered(adj, c, cap, selected, k) && v in selected && Within(adj, c, v, m)
    ensures selected[v] <= m
  {
    assert Distance(adj, c, v, selected[v]);
  }

  /** When only depth `k + 1` is waiting, everything within `k + 1` steps is selected. */
  lemma NextLevel(adj: Adjacency, c: string, cap: nat, selected: map<string, nat>, done: set<string>, k: nat)
    requires Layered(adj, c, cap, selected, k) && Settled(adj, cap, selected, done, k)
    requires forall v :: v in selected && selected[v] <= k ==> v in done
    requires k < cap
    ensures Layered(adj, c, cap, selected, k + 1)
  {
    forall w | Within(adj, c, w, k + 1) ensures w in selected {
      if !Within(adj, c, w, k) {
        var u := WithinLast(adj, c, w, k + 1);
        NotDeeperThanReach(adj, c, cap, selected, k, u, k);
      }
    }
  }

  /** With nothing left waiting, nothing within the depth cap is missing. */
  lemma {:induction false} Exhausted(adj: Adjacency, c: string, cap: nat, selected: map<string, nat>, k: nat, m: nat)
    requires Layered(adj, c, cap, selected, k) && Settled(adj, cap, selected, selected.Keys, k)
    requires m <= cap
    ensures forall w :: Within(adj, c, w, m) ==> w in selected
  {
    forall w | Within(adj, c, w, m) ensures w in selected {
      if m == 0 {
        WithinZero(adj, c, w);
      } else {
        Exhausted(adj, c, cap, selected, k, m - 1);
        if !Within(adj, c, w, m - 1) {
          var u := WithinLast(adj, c, w, m);
          NotDeeperThanReach(adj, c, cap, selected, k, u, m - 1);
        }
      }
    }
  }

  lemma WalkStarts(adj: Adjacency, c: string, cap: nat)
    ensures Layered(adj, c, cap, map[c := 0], 0)
    ensures Queued(map[c := 0], [Visit(c, 0)], {}, 0)
  {
    forall v ensures Within(adj, c, v, 0) <==> v == c { WithinZero(adj, c, v); }
    assert [Visit(c, 0)][0].node in Waiting([Visit(c, 0)]);
  }

  /** What the walk promises, in terms of distances alone. */
  ghost predicate IsChainWalk(adj: Adjacency, c: string, depth: nat, limit: nat, selected: map<string, nat>) {
    && c in selected
    && |selected| <= (if limit > 1 then limit else 1)
    && (forall v :: v in selected ==> Distance(adj, c, v, selected[v]) && selected[v] <= depth)
    && (forall v, u, n: nat :: v in selected && n < selected[v] && Distance(adj, c, u, n) ==> u in selected)
    && (|selected| < limit ==> forall v :: v in selected <==> Within(adj, c, v, depth))
  }

  lemma LayeredIsWalk(adj: Adjacency, c: string, cap: nat, limit: nat, selected: map<string, nat>, k: nat)
    requires Layered(adj, c, cap, selected, k)
    requires |selected| <= (if limit > 1 then limit else 1)
    requires |selected| < limit ==> forall w :: Within(adj, c, w, cap) ==> w in selected
    ensures IsChainWalk(adj, c, cap, limit, selected)
  {
    forall v, u, n: nat | v in selected && n < selected[v] && Distance(adj, c, u, n) ensures u in selected {
      WithinGrows(adj, c, u, n, k);
    }
    forall v | v in selected ensures Within(adj, c, v, cap) {
      WithinGrows(adj, c, v, selected[v], cap);
    }
  }

  lemma SettledGrows(adj: Adjacency, cap: nat, selected: map<string, nat>, done: set<string>, k: nat, w: string)
    requires Settled(adj, cap, selected, done, k) && w !in selected
    ensures Settled(adj, cap, selected[w := k + 1], done, k)
  {
  }

  lemma SettledNode(adj: Adjacency, cap: nat, selected: map<string, nat>, done: set<string>, k: nat, v: string,
                    neighbors: seq<string>)
    requires Settled(adj, cap, selected, done, k) && v in selected && selected[v] <= k
    requires selected[v] >= cap || forall x :: x in Succ(adj, v) ==> x in neighbors
    requires selected[v] >= cap || Seen(neighbors, |neighbors|, selected.Keys)
    ensures Settled(adj, cap, selected, done + {v}, k)
  {
  }

  /** A successor met for the first time lies one step further out than the node being expanded. */
  lemma Discovered(adj: Adjacency, c: string, cap: nat, selected: map<string, nat>, k: nat, v: string, w: string)
    requires Layered(adj, c, cap, selected, k) && k < cap
    requires v in selected && selected[v] == k && w in Succ(adj, v) && w !in selected
    ensures Layered(adj, c, cap, selected[w := k + 1], k)
  {
    WithinStep(adj, c, v, w, k);
    forall m: nat | m < k + 1 ensures !Within(adj, c, w, m) {
      if Within(adj, c, w, m) { WithinGrows(adj, c, w, m, k); }
    }
  }

  lemma SelectedWithin(adj: Adjacency, c: string, cap: nat, selected: map<string, nat>, k: nat, v: string)
    requires Layered(adj, c, cap, selected, k) && v in selected
    ensures Within(adj, c, v, cap)
  {
    WithinGrows(adj, c, v, selected[v], cap);
  }

  ghost predicate Seen(xs: seq<string>, j: nat, seen: set<string>) {
    j <= |xs| && forall i :: 0 <= i < j ==> xs[i] in seen
  }

  lemma SeenNext(xs: seq<string>, j: nat, seen: set<string>, more: set<string>)
    requires Seen(xs, j, seen) && j < |xs| && seen <= more && xs[j] in more
    ensures Seen(xs, j + 1, more)
  {
  }

  /** One pass over the sorted neighbours of a node at depth `k`. */
  method Expand(ghost center: string, adj: Adjacency, ghost depth: nat, limit: nat, node: string, k: nat,
                selected0: map<string, nat>, queue0: seq<Visit>, ghost done: set<string>)
    returns (selected: map<string, nat>, queue: seq<Visit>)
    requires node in selected0 && selected0[node] == k < depth
    requires Layered(adj, center, depth, selected0, k)
    requires |selected0| < limit
    requires Queued(selected0, queue0, done + {node}, k) && Settled(adj, depth, selected0, done, k)
    ensures Layered(adj, center, depth, selected, k)
    ensures |selected| <= limit
    ensures |selected| < limit ==> Queued(selected, queue, done + {node}, k) && Settled(adj, depth, selected, done + {node}, k)
  {
    selected, queue := selected0, queue0;
    var neighbors := SortedSet(Succ(adj, node));
    var j := 0;
    while j < |neighbors|
      invariant 0 <= j <= |neighbors|
      invariant node in selected && selected[node] == k
      invariant Layered(adj, center, depth, selected, k)
      invariant |selected| < limit
      invariant Queued(selected, queue, done + {node}, k) && Settled(adj, depth, selected, done, k)
      invariant Seen(neighbors, j, selected.Keys)
    {
      var neighbor := neighbors[j];
      ghost var seen := selected.Keys;
      if neighbor !in selected {
        Discovered(adj, center, depth, selected, k, node, neighbor);
        Enqueue(selected, queue, done + {node}, k, neighbor);
        SettledGrows(adj, depth, selected, done, k, neighbor);
        selected := selected[neighbor := k + 1];
        queue := queue + [Visit(neighbor, k + 1)];
        if |selected| >= limit {
          return;
        }
      }
      SeenNext(neighbors, j, seen, selected.Keys);
      j := j + 1;
    }
    SettledNode(adj, depth, selected, done, k, node, neighbors);
  }

  method WalkChain(center: string, adj: Adjacency, depth: nat, limit: nat) returns (selected: map<string, nat>)
    ensures IsChainWalk(adj, center, depth, limit, selected)
  {
    selected := map[center := 0];
    var queue: seq<Visit> := [Visit(center, 0)];
    ghost var done: set<string> := {};
    ghost var k: nat := 0;
    ghost var reach := FiniteReach(adj, center, depth);
    WalkStarts(adj, center, depth);
    while queue != [] && |selected| < limit
      invariant Layered(adj, center, depth, selected, k)
      invariant |selected| <= (if limit > 1 then limit else 1)
      invariant done <= reach
      invariant |selected| < limit ==> Queued(selected, queue, done, k) && Settled(adj, depth, selected, done, k)
      decreases reach - done
    {
      var Visit(node, current) := queue[0];
      Dequeue(selected, queue, done, k);
      if current == k + 1 {
        NextLevel(adj, center, depth, selected, done, k);
        k := k + 1;
      }
      SelectedWithin(adj, center, depth, selected, k, node);
      queue := queue[1..];
      if current < depth {
        selected, queue := Expand(center, adj, depth, limit, node, current, selected, queue, done);
      } else {
        SettledNode(adj, depth, selected, done, k, node, []);
      }
      done := done + {node};
    }
    if |selected| < limit {
      assert Waiting(queue) == {};
      Exhausted(adj, center, depth, selected, k, depth);
    }
    LayeredIsWalk(adj, center, depth, limit, selected, k);
  }
}
