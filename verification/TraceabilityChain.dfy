/** The hop-limited traceability chain around a node: project filter, directed adjacency, capped walk and
    induced subgraph. */
module TraceabilityChain {
  import opened ChainWalk
  import opened Distances
  import opened Lists
  import opened Sorting
  import opened Text

  datatype Direction = Upstream | Downstream | Both
  datatype Status = Approved | Pending
  datatype Node = Node(nodeId: string, projectKey: string, name: string)
  datatype Edge = Edge(edgeId: string, source: string, target: string, relation: string)
  datatype Record = Record(edge: Edge, status: Status)
  datatype ChainNode = ChainNode(nodeId: string, name: string, depth: nat, isCenter: bool)
  datatype Chain = Chain(depth: nat, nodes: seq<ChainNode>, edges: seq<Record>, truncated: bool)

  // ---- what a chain is ----

  /** What a chain is asked of. */
  datatype Query = Query(projectKey: string, center: string, nodes: seq<Node>, approved: seq<Edge>, pending: seq<Edge>,
                         dir: Direction, includePending: bool)

  predicate ProjectNode(q: Query, v: string) {
    exists n :: n in q.nodes && n.projectKey == q.projectKey && n.nodeId == v
  }

  /** How often a record is to be seen: approved edges between nodes of the project, and pending ones if they are asked for. */
  function Listed(q: Query, r: Record): nat {
    if !ProjectNode(q, r.edge.source) || !ProjectNode(q, r.edge.target) then 0
    else match r.status
      case Approved => multiset(q.approved)[r.edge]
      case Pending => if q.includePending then multiset(q.pending)[r.edge] else 0
  }

  /** A visible edge leads from `u` to `v` in the direction asked for: along the edge downstream, against it upstream. */
  ghost predicate Linked(q: Query, u: string, v: string) {
    exists e :: (e in q.approved || (q.includePending && e in q.pending))
                && ProjectNode(q, e.source) && ProjectNode(q, e.target)
                && match q.dir
                   case Downstream => e.source == u && e.target == v
                   case Upstream => e.source == v && e.target == u
                   case Both => (e.source == u && e.target == v) || (e.source == v && e.target == u)
  }

  ghost predicate LinksOf(q: Query, adj: Adjacency) {
    forall u, v :: v in Succ(adj, u) <==> Linked(q, u, v)
  }

  /** The shortest way along visible edges from the centre to `v` has `n` of them. */
  ghost predicate Away(q: Query, v: string, n: nat) {
    exists adj :: LinksOf(q, adj) && Distance(adj, q.center, v, n)
  }

  /** The name of a node listed several times is that of its last listing. */
  ghost predicate Named(q: Query, v: string, name: string) {
    exists i :: 0 <= i < |q.nodes| && q.nodes[i].projectKey == q.projectKey && q.nodes[i].nodeId == v && q.nodes[i].name == name
                && forall j :: i < j < |q.nodes| ==> q.nodes[j].projectKey != q.projectKey || q.nodes[j].nodeId != v
  }

  predicate Shown(chain: Chain, v: string) {
    exists n :: n in chain.nodes && n.nodeId == v
  }

  predicate NearerFirst(a: ChainNode, b: ChainNode) {
    a.depth < b.depth || (a.depth == b.depth && StrLe(a.nodeId, b.nodeId))
  }

  predicate ByRelationThenId(a: Record, b: Record) {
    && StrLe(a.edge.relation, b.edge.relation)
    && (a.edge.relation == b.edge.relation ==> StrLe(a.edge.edgeId, b.edge.edgeId))
  }

  ghost predicate NodesOnce(nodes: seq<ChainNode>) {
    forall i, j :: 0 <= i < j < |nodes| ==> nodes[i].nodeId != nodes[j].nodeId
  }

  /** What a traceability chain promises about the nodes and edges it is built from. */
  ghost predicate IsChain(chain: Chain, q: Query, depth: nat, limit: nat) {
    && chain.depth == depth && |chain.nodes| <= limit
    // the centre is selected even when it is unknown, and is then not shown
    && (chain.truncated <==> |chain.nodes| + (if ProjectNode(q, q.center) then 0 else 1) >= limit)
    && NodesOnce(chain.nodes)
    && (forall n :: n in chain.nodes ==>
          && Named(q, n.nodeId, n.name) && (n.isCenter <==> n.nodeId == q.center)
          && n.depth <= depth && Away(q, n.nodeId, n.depth))
    // a node nearer than some shown node is shown, even when the node limit cut the walk short
    && (forall n, v, m: nat :: n in chain.nodes && ProjectNode(q, v) && m < n.depth && Away(q, v, m) ==> Shown(chain, v))
    && (!chain.truncated ==> forall v, m: nat :: ProjectNode(q, v) && m <= depth && Away(q, v, m) ==> Shown(chain, v))
    && (forall r :: multiset(chain.edges)[r] == if Shown(chain, r.edge.source) && Shown(chain, r.edge.target) then Listed(q, r) else 0)
    && SortedBy(ByRelationThenId, chain.edges)
    && SortedBy(NearerFirst, chain.nodes)
  }

  // ---- records and adjacency ----

  predicate Joins(r: Record, dir: Direction, u: string, v: string) {
    || (dir != Upstream && r.edge.source == u && r.edge.target == v)
    || (dir != Downstream && r.edge.target == u && r.edge.source == v)
  }

  ghost predicate Joined(records: seq<Record>, dir: Direction, u: string, v: string) {
    exists r :: r in records && Joins(r, dir, u, v)
  }

  ghost predicate AdjacencyOf(adj: Adjacency, records: seq<Record>, dir: Direction) {
    forall u, v :: v in Succ(adj, u) <==> Joined(records, dir, u, v)
  }

  /** `adjacency[u].add(v)` on a `defaultdict(set)` */
  function Link(adj: Adjacency, u: string, v: string): (r: Adjacency)
    ensures forall a, b :: b in Succ(r, a) <==> b in Succ(adj, a) || (a == u && b == v)
  {
    adj[u := Succ(adj, u) + {v}]
  }

  lemma JoinedSnoc(records: seq<Record>, r: Record, dir: Direction, u: string, v: string)
    ensures Joined(records + [r], dir, u, v) <==> Joined(records, dir, u, v) || Joins(r, dir, u, v)
  {
    if Joined(records, dir, u, v) {
      var q :| q in records && Joins(q, dir, u, v);
      assert q in records + [r];
    }
    assert r in records + [r];
  }

  method BuildAdjacency(records: seq<Record>, dir: Direction) returns (adj: Adjacency)
    ensures AdjacencyOf(adj, records, dir)
  {
    adj := map[];
    for i := 0 to |records|
      invariant AdjacencyOf(adj, records[..i], dir)
    {
      var edge := records[i].edge;
      ghost var before := adj;
      if dir != Upstream {
        adj := Link(adj, edge.source, edge.target);
      }
      if dir != Downstream {
        adj := Link(adj, edge.target, edge.source);
      }
      assert records[..i + 1] == records[..i] + [records[i]];
      forall u, v ensures v in Succ(adj, u) <==> Joined(records[..i + 1], dir, u, v) {
        JoinedSnoc(records[..i], records[i], dir, u, v);
        assert v in Succ(before, u) <==> Joined(records[..i], dir, u, v);
      }
    }
    assert records[..|records|] == records;
  }

  /** No later node of the project has its id. */
  ghost predicate IsLast(nodes: seq<Node>, projectKey: string, n: Node) {
    exists i :: 0 <= i < |nodes| && nodes[i] == n
                && forall j :: i < j < |nodes| ==> nodes[j].projectKey != projectKey || nodes[j].nodeId != n.nodeId
  }

  lemma LastsKept(nodes: seq<Node>, projectKey: string)
    requires nodes != []
    ensures var last := nodes[|nodes| - 1];
            && IsLast(nodes, projectKey, last)
            && forall n :: IsLast(nodes[..|nodes| - 1], projectKey, n) && (last.projectKey != projectKey || last.nodeId != n.nodeId) ==>
                 IsLast(nodes, projectKey, n)
  {
    var init, last := nodes[..|nodes| - 1], nodes[|nodes| - 1];
    assert nodes[|nodes| - 1] == last;
    forall n | IsLast(init, projectKey, n) && (last.projectKey != projectKey || last.nodeId != n.nodeId) ensures IsLast(nodes, projectKey, n) {
      var i :| 0 <= i < |init| && init[i] == n
               && forall j :: i < j < |init| ==> init[j].projectKey != projectKey || init[j].nodeId != n.nodeId;
      assert nodes[i] == n;
      assert forall j :: i < j < |nodes| ==> nodes[j] == if j == |nodes| - 1 then last else init[j];
    }
  }

  /** `{node.node_id: node for node in nodes if node.project_key == project_key}`: the last one wins. */
  function NodeMap(nodes: seq<Node>, projectKey: string): (m: map<string, Node>)
    ensures forall v :: v in m <==> exists n :: n in nodes && n.projectKey == projectKey && n.nodeId == v
    ensures forall v :: v in m ==> m[v] in nodes && m[v].nodeId == v && m[v].projectKey == projectKey
    ensures forall v :: v in m ==> IsLast(nodes, projectKey, m[v])
  {
    if nodes == [] then map[] else
      var last := nodes[|nodes| - 1];
      var rest := NodeMap(nodes[..|nodes| - 1], projectKey);
      assert forall n :: n in nodes <==> n in nodes[..|nodes| - 1] || n == last;
      LastsKept(nodes, projectKey);
      if last.projectKey == projectKey then rest[last.nodeId := last] else rest
  }

  /** `(edge, status) for edge in edges if _edge_in_project(edge, node_map)` */
  function RecordsOf(edges: seq<Edge>, known: set<string>, status: Status): (r: seq<Record>)
    ensures forall x :: multiset(r)[x] == if x.status == status && x.edge.source in known && x.edge.target in known then multiset(edges)[x.edge] else 0
  {
    if edges == [] then []
    else
      var e := edges[0];
      assert edges == [e] + edges[1..];
      (if e.source in known && e.target in known then [Record(e, status)] else []) + RecordsOf(edges[1..], known, status)
  }

  function EdgeRecords(approved: seq<Edge>, pending: seq<Edge>, known: set<string>, includePending: bool): seq<Record> {
    RecordsOf(approved, known, Approved) + if includePending then RecordsOf(pending, known, Pending) else []
  }

  function ByDepthThenId(depths: map<string, nat>): (string, string) -> bool {
    (a: string, b: string) =>
      var x := if a in depths then depths[a] else 0;
      var y := if b in depths then depths[b] else 0;
      x < y || (x == y && StrLe(a, b))
  }

  lemma ByDepthThenIdIsPreorder(depths: map<string, nat>)
    ensures TotalPreorder(ByDepthThenId(depths))
  {
    var le := ByDepthThenId(depths);
    forall a, b ensures le(a, b) || le(b, a) { StrLeTotal(a, b); }
    forall a, b, c | le(a, b) && le(b, c) ensures le(a, c) {
      if StrLe(a, b) && StrLe(b, c) { StrLeTransitive(a, b, c); }
    }
  }

  lemma ByRelationThenIdIsPreorder()
    ensures TotalPreorder(ByRelationThenId)
  {
    forall a, b ensures ByRelationThenId(a, b) || ByRelationThenId(b, a) {
      StrLeTotal(a.edge.relation, b.edge.relation);
      StrLeTotal(a.edge.edgeId, b.edge.edgeId);
    }
    forall a, b, c | ByRelationThenId(a, b) && ByRelationThenId(b, c) ensures ByRelationThenId(a, c) {
      StrLeTransitive(a.edge.relation, b.edge.relation, c.edge.relation);
      if a.edge.relation == c.edge.relation {
        StrLeAntisymmetric(a.edge.relation, b.edge.relation);
        StrLeTransitive(a.edge.edgeId, b.edge.edgeId, c.edge.edgeId);
      }
    }
  }

  /** The shortest chain of visible records from `a` to `b` in the chosen direction has `n` of them. */
  ghost predicate ChainDistance(records: seq<Record>, dir: Direction, a: string, b: string, n: nat) {
    exists adj :: AdjacencyOf(adj, records, dir) && Distance(adj, a, b, n)
  }

  lemma ChainDistanceIn(adj: Adjacency, records: seq<Record>, dir: Direction, a: string, b: string, n: nat)
    requires AdjacencyOf(adj, records, dir)
    ensures ChainDistance(records, dir, a, b, n) <==> Distance(adj, a, b, n)
  {
    if ChainDistance(records, dir, a, b, n) {
      var other :| AdjacencyOf(other, records, dir) && Distance(other, a, b, n);
      assert forall u, v :: v in Succ(other, u) <==> v in Succ(adj, u) by {
        forall u, v ensures v in Succ(other, u) <==> v in Succ(adj, u) {
          assert v in Succ(other, u) <==> Joined(records, dir, u, v);
        }
      }
      DistanceDependsOnSteps(other, adj, a, b, n);
    }
  }

  function NodeViews(ids: seq<string>, depths: map<string, nat>, known: map<string, Node>, center: string): (r: seq<ChainNode>)
    requires forall v :: v in ids ==> v in depths
    ensures |r| <= |ids|
    ensures forall n :: n in r <==>
      n.nodeId in ids && n.nodeId in known && n == ChainNode(n.nodeId, known[n.nodeId].name, depths[n.nodeId], n.nodeId == center)
  {
    if ids == [] then []
    else
      assert forall v :: v in ids <==> v == ids[0] || v in ids[1..];
      (if ids[0] in known then [ChainNode(ids[0], known[ids[0]].name, depths[ids[0]], ids[0] == center)] else [])
      + NodeViews(ids[1..], depths, known, center)
  }

  function Induced(records: seq<Record>, selected: set<string>): seq<Record> {
    Filter((r: Record) => r.edge.source in selected && r.edge.target in selected, records)
  }

  /** The promises of a chain about a list of records. */
  ghost predicate ChainOver(chain: Chain, records: seq<Record>, dir: Direction, known: map<string, Node>, center: string,
                            depth: nat, limit: nat) {
    && chain.depth == depth
    && |chain.nodes| <= limit
    // the centre is selected even when it is unknown, and is then not shown
    && (chain.truncated <==> |chain.nodes| + (if center in known then 0 else 1) >= limit)
    && NodesOnce(chain.nodes)
    && (forall n :: n in chain.nodes ==>
          && n.nodeId in known && n.name == known[n.nodeId].name
          && (n.isCenter <==> n.nodeId == center)
          && n.depth <= depth && ChainDistance(records, dir, center, n.nodeId, n.depth))
    // a node nearer than some shown node is shown, even when the node limit cut the walk short
    && (forall n, v, m: nat :: n in chain.nodes && v in known && m < n.depth && ChainDistance(records, dir, center, v, m) ==>
          Shown(chain, v))
    && (!chain.truncated ==>
          forall v, m: nat :: v in known && m <= depth && ChainDistance(records, dir, center, v, m) ==> Shown(chain, v))
    && (forall r :: r in chain.edges <==> r in records && Shown(chain, r.edge.source) && Shown(chain, r.edge.target))
    && (forall r :: multiset(chain.edges)[r] <= multiset(records)[r])
    && (forall r :: r in chain.edges ==> multiset(chain.edges)[r] == multiset(records)[r])
    && SortedBy(ByRelationThenId, chain.edges)
    && SortedBy(NearerFirst, chain.nodes)
  }

  lemma {:induction false} NodeViewsKeepOrder(ids: seq<string>, depths: map<string, nat>, known: map<string, Node>,
                                              center: string)
    requires forall v :: v in ids ==> v in depths
    requires SortedBy(ByDepthThenId(depths), ids)
    ensures SortedBy(NearerFirst, NodeViews(ids, depths, known, center))
  {
    if ids != [] {
      NodeViewsKeepOrder(ids[1..], depths, known, center);
      var rest := NodeViews(ids[1..], depths, known, center);
      forall j | 0 <= j < |rest| ensures ByDepthThenId(depths)(ids[0], rest[j].nodeId) {
        assert rest[j] in rest && rest[j].nodeId in ids[1..];
        var i :| 0 <= i < |ids[1..]| && ids[1..][i] == rest[j].nodeId;
        assert ids[i + 1] == rest[j].nodeId;
      }
    }
  }

  /** The records are what `Listed` counts, and joining them is what `Linked` says. */
  ghost predicate RecordsFor(q: Query, records: seq<Record>) {
    forall r :: multiset(records)[r] == Listed(q, r)
  }

  lemma EdgeRecordsListed(q: Query)
    ensures RecordsFor(q, EdgeRecords(q.approved, q.pending, NodeMap(q.nodes, q.projectKey).Keys, q.includePending))
  {
    var known := NodeMap(q.nodes, q.projectKey);
    assert forall v :: v in known.Keys <==> ProjectNode(q, v);
    var records := EdgeRecords(q.approved, q.pending, known.Keys, q.includePending);
    assert multiset(records) == multiset(RecordsOf(q.approved, known.Keys, Approved))
                                + multiset(if q.includePending then RecordsOf(q.pending, known.Keys, Pending) else []);
  }

  lemma ListedIsVisible(q: Query, e: Edge)
    ensures Listed(q, Record(e, Approved)) > 0 || Listed(q, Record(e, Pending)) > 0 <==>
            (e in q.approved || (q.includePending && e in q.pending)) && ProjectNode(q, e.source) && ProjectNode(q, e.target)
  {
    assert e in q.approved <==> multiset(q.approved)[e] > 0;
    assert e in q.pending <==> multiset(q.pending)[e] > 0;
  }

  lemma JoinedIsLinked(q: Query, records: seq<Record>, u: string, v: string)
    requires RecordsFor(q, records)
    ensures Joined(records, q.dir, u, v) <==> Linked(q, u, v)
  {
    if Joined(records, q.dir, u, v) {
      var r :| r in records && Joins(r, q.dir, u, v);
      assert multiset(records)[r] > 0;
      assert r == Record(r.edge, Approved) || r == Record(r.edge, Pending);
      ListedIsVisible(q, r.edge);
    }
    if Linked(q, u, v) {
      var e :| (e in q.approved || (q.includePending && e in q.pending)) && ProjectNode(q, e.source) && ProjectNode(q, e.target)
               && match q.dir
                  case Downstream => e.source == u && e.target == v
                  case Upstream => e.source == v && e.target == u
                  case Both => (e.source == u && e.target == v) || (e.source == v && e.target == u);
      ListedIsVisible(q, e);
      var r := if Listed(q, Record(e, Approved)) > 0 then Record(e, Approved) else Record(e, Pending);
      assert multiset(records)[r] > 0;
      assert r in records && Joins(r, q.dir, u, v);
    }
  }

  lemma AwayIsDistance(q: Query, records: seq<Record>, v: string, n: nat)
    requires RecordsFor(q, records)
    ensures Away(q, v, n) <==> ChainDistance(records, q.dir, q.center, v, n)
  {
    forall adj: Adjacency ensures LinksOf(q, adj) <==> AdjacencyOf(adj, records, q.dir) {
      forall x, y ensures Joined(records, q.dir, x, y) <==> Linked(q, x, y) { JoinedIsLinked(q, records, x, y); }
    }
  }

  lemma NamedLast(q: Query, v: string)
    requires ProjectNode(q, v)
    ensures v in NodeMap(q.nodes, q.projectKey) && Named(q, v, NodeMap(q.nodes, q.projectKey)[v].name)
  {
    var n := NodeMap(q.nodes, q.projectKey)[v];
    assert IsLast(q.nodes, q.projectKey, n);
  }

  lemma ShownRecords(chain: Chain, q: Query, records: seq<Record>, r: Record)
    requires RecordsFor(q, records)
    requires forall x :: x in chain.edges <==> x in records && Shown(chain, x.edge.source) && Shown(chain, x.edge.target)
    requires forall x :: x in chain.edges ==> multiset(chain.edges)[x] == multiset(records)[x]
    ensures multiset(chain.edges)[r] == if Shown(chain, r.edge.source) && Shown(chain, r.edge.target) then Listed(q, r) else 0
  {
    assert r in chain.edges <==> multiset(chain.edges)[r] > 0;
    assert r in records <==> multiset(records)[r] > 0;
  }

  lemma ChainAnswers(chain: Chain, q: Query, records: seq<Record>, depth: nat, limit: nat)
    requires RecordsFor(q, records) && ChainOver(chain, records, q.dir, NodeMap(q.nodes, q.projectKey), q.center, depth, limit)
    ensures IsChain(chain, q, depth, limit)
  {
    var known := NodeMap(q.nodes, q.projectKey);
    forall v ensures v in known <==> ProjectNode(q, v) {}
    forall v, n: nat ensures Away(q, v, n) <==> ChainDistance(records, q.dir, q.center, v, n) { AwayIsDistance(q, records, v, n); }
    forall n | n in chain.nodes ensures Named(q, n.nodeId, n.name) { NamedLast(q, n.nodeId); }
    forall r ensures multiset(chain.edges)[r] == if Shown(chain, r.edge.source) && Shown(chain, r.edge.target) then Listed(q, r) else 0 {
      ShownRecords(chain, q, records, r);
    }
  }

  method BuildTraceabilityChain(projectKey: string, center: string, nodes: seq<Node>, approved: seq<Edge>,
                                pending: seq<Edge>, dir: Direction, depth: int, includePending: bool, limitNodes: int)
    returns (chain: Chain)
    ensures IsChain(chain, Query(projectKey, center, nodes, approved, pending, dir, includePending),
                    Clamp(depth, 1, 6), Clamp(limitNodes, 1, 500))
  {
    var cappedDepth, cappedLimit := Clamp(depth, 1, 6), Clamp(limitNodes, 1, 500);
    var known := NodeMap(nodes, projectKey);
    var records := EdgeRecords(approved, pending, known.Keys, includePending);
    var adj := BuildAdjacency(records, dir);
    var depths := WalkChain(center, adj, cappedDepth, cappedLimit);
    var ids := Sort(ByDepthThenId(depths), SortedSet(depths.Keys));
    ViewsInOrder(ids, depths, known, center);
    var edges := Sort(ByRelationThenId, Induced(records, depths.Keys));
    chain := Chain(cappedDepth, NodeViews(ids, depths, known, center), edges, |depths| >= cappedLimit);
    EdgeRecordsListed(Query(projectKey, center, nodes, approved, pending, dir, includePending));
    RecordsAmongKnown(Query(projectKey, center, nodes, approved, pending, dir, includePending), records);
    ChainIsRight(chain, records, dir, known, center, cappedDepth, cappedLimit, adj, depths, ids);
    ChainAnswers(chain, Query(projectKey, center, nodes, approved, pending, dir, includePending), records, cappedDepth, cappedLimit);
  }

  lemma ViewsInOrder(ids: seq<string>, depths: map<string, nat>, known: map<string, Node>, center: string)
    requires ids == Sort(ByDepthThenId(depths), SortedSet(depths.Keys))
    ensures |ids| == |depths| && forall x :: x in ids <==> x in depths
    ensures SortedBy(NearerFirst, NodeViews(ids, depths, known, center))
  {
    SameMembers(ids, SortedSet(depths.Keys));
    ByDepthThenIdIsPreorder(depths);
    SortSorts(ByDepthThenId(depths), SortedSet(depths.Keys));
    NodeViewsKeepOrder(ids, depths, known, center);
  }

  lemma RecordsAmongKnown(q: Query, records: seq<Record>)
    requires RecordsFor(q, records)
    ensures forall r :: r in records ==> r.edge.source in NodeMap(q.nodes, q.projectKey) && r.edge.target in NodeMap(q.nodes, q.projectKey)
  {
    assert forall r :: r in records ==> multiset(records)[r] > 0;
  }

  lemma ShownMeansSelected(chain: Chain, known: map<string, Node>, center: string, depths: map<string, nat>,
                           ids: seq<string>, v: string)
    requires forall x :: x in ids <==> x in depths
    requires chain.nodes == NodeViews(ids, depths, known, center)
    ensures Shown(chain, v) <==> v in depths && v in known
  {
    if v in depths && v in known {
      var n := ChainNode(v, known[v].name, depths[v], v == center);
      assert n in chain.nodes;
    }
  }

  // ---- how much is shown ----

  ghost predicate Once(ids: seq<string>) {
    forall i, j :: 0 <= i < j < |ids| ==> ids[i] != ids[j]
  }

  lemma {:induction false} NoMoreThanListed(ids: seq<string>, s: set<string>)
    requires forall x :: x in s ==> x in ids
    ensures |s| <= |ids|
  {
    if ids == [] {
      assert s == {};
    } else {
      NoMoreThanListed(ids[1..], s - {ids[0]});
    }
  }

  lemma {:induction false} FullListIsOnce(ids: seq<string>, s: set<string>)
    requires |ids| == |s| && forall x :: x in ids <==> x in s
    ensures Once(ids)
  {
    if ids != [] {
      if ids[0] in ids[1..] {
        NoMoreThanListed(ids[1..], s);
        assert false;
      }
      var rest := s - {ids[0]};
      assert ids[0] in ids && |rest| == |s| - 1;
      forall x ensures x in ids[1..] <==> x in rest {
        assert x in ids <==> x == ids[0] || x in ids[1..];
      }
      FullListIsOnce(ids[1..], rest);
      assert forall j :: 0 < j < |ids| ==> ids[j] == ids[1..][j - 1] && ids[1..][j - 1] in ids[1..];
    }
  }

  lemma {:induction false} ViewsCount(ids: seq<string>, depths: map<string, nat>, known: map<string, Node>, center: string)
    requires Once(ids) && forall v :: v in ids ==> v in depths && (v in known || v == center)
    ensures |NodeViews(ids, depths, known, center)| == |ids| - if center in ids && center !in known then 1 else 0
    ensures NodesOnce(NodeViews(ids, depths, known, center))
  {
    if ids != [] {
      var rest := NodeViews(ids[1..], depths, known, center);
      assert forall j :: 0 < j < |ids| ==> ids[j] == ids[1..][j - 1];
      ViewsCount(ids[1..], depths, known, center);
      assert center in ids <==> center == ids[0] || center in ids[1..];
      assert ids[0] !in ids[1..];
      assert forall j :: 0 <= j < |rest| ==> rest[j] in rest && rest[j].nodeId in ids[1..];
    }
  }

  /** What is reached is the centre or an end of a record. */
  lemma ReachedIsKnown(adj: Adjacency, records: seq<Record>, dir: Direction, known: map<string, Node>, center: string, v: string, n: nat)
    requires AdjacencyOf(adj, records, dir) && Within(adj, center, v, n)
    requires forall r :: r in records ==> r.edge.source in known && r.edge.target in known
    ensures v in known || v == center
  {
    var p :| WalkBetween(adj, center, v, p) && |p| - 1 <= n;
    if |p| > 1 {
      assert p[|p| - 1] in Succ(adj, p[|p| - 2]);
      assert Joined(records, dir, p[|p| - 2], v);
    }
  }

  lemma ShownCount(adj: Adjacency, records: seq<Record>, dir: Direction, known: map<string, Node>, center: string, depth: nat,
                   limit: nat, depths: map<string, nat>, ids: seq<string>)
    requires 1 <= limit && AdjacencyOf(adj, records, dir) && IsChainWalk(adj, center, depth, limit, depths)
    requires |ids| == |depths| && forall x :: x in ids <==> x in depths
    requires forall r :: r in records ==> r.edge.source in known && r.edge.target in known
    ensures |NodeViews(ids, depths, known, center)| + (if center in known then 0 else 1) == |depths|
    ensures NodesOnce(NodeViews(ids, depths, known, center))
  {
    forall v | v in ids ensures v in known || v == center {
      ReachedIsKnown(adj, records, dir, known, center, v, depths[v]);
    }
    assert |depths.Keys| == |depths|;
    FullListIsOnce(ids, depths.Keys);
    ViewsCount(ids, depths, known, center);
  }

  lemma EdgeCounts(edges: seq<Record>, records: seq<Record>, selected: set<string>)
    requires multiset(edges) == multiset(Induced(records, selected))
    ensures forall r :: multiset(edges)[r] <= multiset(records)[r]
    ensures forall r :: r in edges ==> multiset(edges)[r] == multiset(records)[r]
  {
    var keep := (r: Record) => r.edge.source in selected && r.edge.target in selected;
    forall r ensures multiset(edges)[r] == if keep(r) then multiset(records)[r] else 0 {
      FilterCounts(keep, records, r);
    }
    assert forall r :: r in edges ==> multiset(edges)[r] > 0;
  }

  lemma ChainIsRight(chain: Chain, records: seq<Record>, dir: Direction, known: map<string, Node>, center: string,
                     depth: nat, limit: nat, adj: Adjacency, depths: map<string, nat>, ids: seq<string>)
    requires 1 <= limit && AdjacencyOf(adj, records, dir) && IsChainWalk(adj, center, depth, limit, depths)
    requires |ids| == |depths| && forall x :: x in ids <==> x in depths
    requires forall r :: r in records ==> r.edge.source in known && r.edge.target in known
    requires chain == Chain(depth, NodeViews(ids, depths, known, center),
                            Sort(ByRelationThenId, Induced(records, depths.Keys)), |depths| >= limit)
    requires SortedBy(NearerFirst, chain.nodes)
    ensures ChainOver(chain, records, dir, known, center, depth, limit)
  {
    forall v ensures Shown(chain, v) <==> v in depths && v in known {
      ShownMeansSelected(chain, known, center, depths, ids, v);
    }
    forall v, m: nat ensures ChainDistance(records, dir, center, v, m) <==> Distance(adj, center, v, m) {
      ChainDistanceIn(adj, records, dir, center, v, m);
    }
    forall v, m: nat | m <= depth && Distance(adj, center, v, m) ensures Within(adj, center, v, depth) {
      WithinGrows(adj, center, v, m, depth);
    }
    ByRelationThenIdIsPreorder();
    SortSorts(ByRelationThenId, Induced(records, depths.Keys));
    SameMembers(chain.edges, Induced(records, depths.Keys));
    ShownCount(adj, records, dir, known, center, depth, limit, depths, ids);
    EdgeCounts(chain.edges, records, depths.Keys);
  }

  lemma OppositeDirections(down: Adjacency, up: Adjacency, records: seq<Record>)
    requires AdjacencyOf(down, records, Downstream) && AdjacencyOf(up, records, Upstream)
    ensures Converse(down, up)
  {
    forall u, v ensures v in Succ(down, u) <==> u in Succ(up, v) {
      assert forall r :: Joins(r, Downstream, u, v) <==> Joins(r, Upstream, v, u);
      assert v in Succ(down, u) <==> Joined(records, Downstream, u, v);
      assert u in Succ(up, v) <==> Joined(records, Upstream, v, u);
    }
  }

  /** Untruncated downstream and upstream walks are dual: each finds the other's centre, at the same depth. */
  lemma DownstreamUpstreamDual(records: seq<Record>, down: Adjacency, up: Adjacency, c: string, v: string, depth: nat,
                               limitDown: nat, limitUp: nat, fromC: map<string, nat>, fromV: map<string, nat>)
    requires AdjacencyOf(down, records, Downstream) && AdjacencyOf(up, records, Upstream)
    requires IsChainWalk(down, c, depth, limitDown, fromC) && |fromC| < limitDown
    requires IsChainWalk(up, v, depth, limitUp, fromV) && |fromV| < limitUp
    ensures v in fromC <==> c in fromV
    ensures v in fromC && c in fromV ==> fromC[v] == fromV[c]
  {
    OppositeDirections(down, up, records);
    WithinConverse(down, up, c, v, depth);
    WithinConverse(up, down, v, c, depth);
    if v in fromC {
      DistanceConverse(down, up, c, v, fromC[v]);
      DistanceUnique(up, v, c, fromC[v], fromV[c]);
    }
  }
}
