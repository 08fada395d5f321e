/** The graph projection: degrees, the choice of nodes by mode, and the edges shown between them. */
module Projection {
  import opened Distances
  import opened Lists
  import opened Neighborhood
  import opened Sorting
  import opened Text
  import Chains = TraceabilityChain

  /** `risky` stands for a critical or high risk level among the node's findings. */
  datatype Node = Node(nodeId: string, nodeType: string, risky: bool)

  datatype Degree = Degree(approvedIn: nat, approvedOut: nat, pendingIn: nat, pendingOut: nat)

  datatype View = View(node: Node, degree: Degree, isOrphan: bool, hasPending: bool)

  /** `overview`, `full`, and `neighborhood` without a centre all take everything. */
  datatype Mode = Everything | Orphans | PendingOnly | Around(center: string)

  /** `incoming` and `outgoing` without a centre show all edges. */
  datatype EdgeFilter = AllEdges | ApprovedEdges | PendingEdges | Incoming(center: string) | Outgoing(center: string)

  datatype Projected = Projected(nodes: seq<View>, approved: seq<Chains.Edge>, pending: seq<Chains.Edge>, truncated: bool)

  const NO_EDGES := Degree(0, 0, 0, 0)

  // ---- degrees ----

  function CountFrom(edges: seq<Chains.Edge>, v: string): nat {
    if edges == [] then 0 else CountFrom(edges[..|edges| - 1], v) + if edges[|edges| - 1].source == v then 1 else 0
  }

  function CountInto(edges: seq<Chains.Edge>, v: string): nat {
    if edges == [] then 0 else CountInto(edges[..|edges| - 1], v) + if edges[|edges| - 1].target == v then 1 else 0
  }

  /** `degree[node_id]` on a `defaultdict` */
  function DegreeOf(degree: map<string, Degree>, v: string): Degree {
    if v in degree then degree[v] else NO_EDGES
  }

  ghost predicate Counts(degree: map<string, Degree>, approved: seq<Chains.Edge>, pending: seq<Chains.Edge>) {
    forall v :: DegreeOf(degree, v) ==
                Degree(CountInto(approved, v), CountFrom(approved, v), CountInto(pending, v), CountFrom(pending, v))
  }

  method CountPending(degree0: map<string, Degree>, approved: seq<Chains.Edge>, pending: seq<Chains.Edge>)
    returns (degree: map<string, Degree>)
    requires Counts(degree0, approved, [])
    ensures Counts(degree, approved, pending)
  {
    degree := degree0;
    for i := 0 to |pending|
      invariant Counts(degree, approved, pending[..i])
    {
      assert pending[..i + 1][..i] == pending[..i];
      var source, target := pending[i].source, pending[i].target;
      degree := degree[source := DegreeOf(degree, source).(pendingOut := DegreeOf(degree, source).pendingOut + 1)];
      degree := degree[target := DegreeOf(degree, target).(pendingIn := DegreeOf(degree, target).pendingIn + 1)];
    }
    assert pending[..|pending|] == pending;
  }

  /** Four counters per node: a self-loop counts on both sides. */
  method DegreeByNode(approved: seq<Chains.Edge>, pending: seq<Chains.Edge>) returns (degree: map<string, Degree>)
    ensures Counts(degree, approved, pending)
  {
    degree := map[];
    for i := 0 to |approved|
      invariant Counts(degree, approved[..i], [])
    {
      assert approved[..i + 1][..i] == approved[..i];
      var source, target := approved[i].source, approved[i].target;
      degree := degree[source := DegreeOf(degree, source).(approvedOut := DegreeOf(degree, source).approvedOut + 1)];
      degree := degree[target := DegreeOf(degree, target).(approvedIn := DegreeOf(degree, target).approvedIn + 1)];
    }
    assert approved[..|approved|] == approved;
    degree := CountPending(degree, approved, pending);
  }

  predicate Ends(e: Chains.Edge, v: string) {
    e.source == v || e.target == v
  }

  lemma {:induction false} NoDegreeIff(edges: seq<Chains.Edge>, v: string)
    ensures CountFrom(edges, v) + CountInto(edges, v) == 0 <==> forall e :: e in edges ==> !Ends(e, v)
  {
    if edges != [] {
      var init, last := edges[..|edges| - 1], edges[|edges| - 1];
      NoDegreeIff(init, v);
      assert edges == init + [last] && last in edges;
      assert (forall e :: e in edges ==> !Ends(e, v)) <==> (forall e :: e in init ==> !Ends(e, v)) && !Ends(last, v);
    }
  }

  function ViewOf(node: Node, degree: Degree): View {
    View(node, degree, degree.approvedIn + degree.approvedOut + degree.pendingIn + degree.pendingOut == 0,
         degree.pendingIn + degree.pendingOut > 0)
  }

  /** An orphan is a node no edge ends at; a node has pending edges exactly when one ends at it. */
  ghost predicate ViewRight(view: View, approved: seq<Chains.Edge>, pending: seq<Chains.Edge>) {
    && view.degree == Degree(CountInto(approved, view.node.nodeId), CountFrom(approved, view.node.nodeId),
                             CountInto(pending, view.node.nodeId), CountFrom(pending, view.node.nodeId))
    && (view.hasPending <==> exists e :: e in pending && Ends(e, view.node.nodeId))
    && (view.isOrphan <==> forall e :: e in approved + pending ==> !Ends(e, view.node.nodeId))
  }

  function Views(nodes: seq<Node>, degree: map<string, Degree>): (views: seq<View>)
    ensures |views| == |nodes|
    ensures forall i :: 0 <= i < |nodes| ==> views[i] == ViewOf(nodes[i], DegreeOf(degree, nodes[i].nodeId))
  {
    if nodes == [] then [] else [ViewOf(nodes[0], DegreeOf(degree, nodes[0].nodeId))] + Views(nodes[1..], degree)
  }

  lemma ViewsRight(node: Node, degree: map<string, Degree>, approved: seq<Chains.Edge>, pending: seq<Chains.Edge>)
    requires Counts(degree, approved, pending)
    ensures ViewRight(ViewOf(node, DegreeOf(degree, node.nodeId)), approved, pending)
  {
    NoDegreeIff(approved, node.nodeId);
    NoDegreeIff(pending, node.nodeId);
  }

  // ---- the order of nodes ----

  /** Orphans, then risky nodes, then nodes with pending edges come first. */
  function Rank(v: View): nat {
    (if v.isOrphan then 0 else 4) + (if v.node.risky then 0 else 2) + if v.hasPending then 0 else 1
  }

  predicate Before(a: View, b: View) {
    || Rank(a) < Rank(b)
    || (Rank(a) == Rank(b)
        && (if a.node.nodeType == b.node.nodeType then StrLe(a.node.nodeId, b.node.nodeId) else StrLe(a.node.nodeType, b.node.nodeType)))
  }

  /** Orphans come first, among them and among the others the risky, then those with pending edges; then type and id decide. */
  lemma BeforeIff(a: View, b: View)
    ensures Before(a, b) <==>
            if a.isOrphan != b.isOrphan then a.isOrphan
            else if a.node.risky != b.node.risky then a.node.risky
            else if a.hasPending != b.hasPending then a.hasPending
            else if a.node.nodeType != b.node.nodeType then StrLe(a.node.nodeType, b.node.nodeType)
            else StrLe(a.node.nodeId, b.node.nodeId)
  {
  }

  lemma BeforeIsPreorder()
    ensures TotalPreorder(Before)
  {
    forall a, b ensures Before(a, b) || Before(b, a) {
      StrLeTotal(a.node.nodeType, b.node.nodeType);
      StrLeTotal(a.node.nodeId, b.node.nodeId);
    }
    forall a, b, c | Before(a, b) && Before(b, c) ensures Before(a, c) {
      if Rank(a) == Rank(b) == Rank(c) {
        BeforeInRank(a.node, b.node, c.node);
      }
    }
  }

  predicate NodeBefore(a: Node, b: Node) {
    if a.nodeType == b.nodeType then StrLe(a.nodeId, b.nodeId) else StrLe(a.nodeType, b.nodeType)
  }

  lemma BeforeInRank(a: Node, b: Node, c: Node)
    requires NodeBefore(a, b) && NodeBefore(b, c)
    ensures NodeBefore(a, c)
  {
    if a.nodeType == b.nodeType == c.nodeType {
      StrLeTransitive(a.nodeId, b.nodeId, c.nodeId);
    } else if a.nodeType == c.nodeType {
      StrLeAntisymmetric(a.nodeType, b.nodeType);
    } else if a.nodeType != b.nodeType && b.nodeType != c.nodeType {
      StrLeTransitive(a.nodeType, b.nodeType, c.nodeType);
    }
  }

  // ---- choosing the nodes ----

  /** What a mode asks of a node, given the hops. */
  ghost predicate Wanted(view: View, mode: Mode, edges: seq<Chains.Edge>, hops: nat) {
    match mode
    case Everything => true
    case Orphans => view.isOrphan
    case PendingOnly => view.hasPending
    case Around(center) => Near(edges, center, view.node.nodeId, hops)
  }

  /** The wanted nodes that match the search, each as often as it is listed, in order, up to the limit: the first ones, none skipped. */
  ghost predicate Selected(views: seq<View>, matches: View -> bool, mode: Mode, edges: seq<Chains.Edge>, hops: nat, limit: nat,
                           selected: seq<View>)
  {
    && SortedBy(Before, selected) && |selected| <= limit
    && (forall v :: v in selected ==> v in views && matches(v) && Wanted(v, mode, edges, hops))
    && (forall v :: multiset(selected)[v] <= multiset(views)[v])
    && (forall v :: v in views && matches(v) && Wanted(v, mode, edges, hops) && multiset(selected)[v] < multiset(views)[v] ==>
          |selected| == limit && forall s :: s in selected ==> Before(s, v))
  }

  function TakeFirst(views: seq<View>, limit: nat): seq<View> {
    if |views| <= limit then views else views[..limit]
  }

  /** `kept` holds the matching and wanted views, each as often as it is listed. */
  ghost predicate Kept(views: seq<View>, matches: View -> bool, mode: Mode, edges: seq<Chains.Edge>, hops: nat, kept: seq<View>) {
    forall v :: multiset(kept)[v] == if matches(v) && Wanted(v, mode, edges, hops) then multiset(views)[v] else 0
  }

  lemma KeptIs(views: seq<View>, matches: View -> bool, mode: Mode, edges: seq<Chains.Edge>, hops: nat, keep: View -> bool, kept: seq<View>)
    requires kept == Filter(keep, views) && forall v :: keep(v) <==> matches(v) && Wanted(v, mode, edges, hops)
    ensures Kept(views, matches, mode, edges, hops, kept)
  {
    forall v ensures multiset(kept)[v] == if keep(v) then multiset(views)[v] else 0 {
      FilterCounts(keep, views, v);
    }
  }

  /** The first ones of a sorted list. */
  lemma FirstOnes(sorted: seq<View>, limit: nat, v: View)
    requires SortedBy(Before, sorted)
    ensures multiset(TakeFirst(sorted, limit))[v] <= multiset(sorted)[v]
    ensures multiset(TakeFirst(sorted, limit))[v] < multiset(sorted)[v] ==>
              |TakeFirst(sorted, limit)| == limit && forall s :: s in TakeFirst(sorted, limit) ==> Before(s, v)
  {
    if |sorted| > limit {
      var first, rest := sorted[..limit], sorted[limit..];
      assert sorted == first + rest;
      if v in rest {
        var j :| 0 <= j < |rest| && rest[j] == v;
        assert sorted[limit + j] == v;
        forall s | s in first ensures Before(s, v) {
          var i :| 0 <= i < |first| && first[i] == s;
          assert sorted[i] == s;
        }
      }
    }
  }

  lemma TakeFirstMembers(sorted: seq<View>, kept: seq<View>, limit: nat)
    requires multiset(sorted) == multiset(kept)
    ensures forall v :: v in TakeFirst(sorted, limit) ==> v in kept
  {
    SameMembers(sorted, kept);
  }

  lemma SortedPrefix(views: seq<View>, matches: View -> bool, mode: Mode, edges: seq<Chains.Edge>, hops: nat, limit: nat,
                     kept: seq<View>)
    requires Kept(views, matches, mode, edges, hops, kept)
    ensures Selected(views, matches, mode, edges, hops, limit, TakeFirst(Sort(Before, kept), limit))
  {
    BeforeIsPreorder();
    SortSorts(Before, kept);
    var sorted := Sort(Before, kept);
    SortedPrefixOf(views, matches, mode, edges, hops, limit, kept, sorted);
  }

  lemma SortedPrefixOf(views: seq<View>, matches: View -> bool, mode: Mode, edges: seq<Chains.Edge>, hops: nat, limit: nat,
                       kept: seq<View>, sorted: seq<View>)
    requires Kept(views, matches, mode, edges, hops, kept) && SortedBy(Before, sorted) && multiset(sorted) == multiset(kept)
    ensures Selected(views, matches, mode, edges, hops, limit, TakeFirst(sorted, limit))
  {
    TakeFirstMembers(sorted, kept, limit);
    forall v ensures v in kept ==> multiset(kept)[v] > 0 {}
    forall v ensures multiset(views)[v] > 0 ==> v in views {}
    forall v ensures multiset(TakeFirst(sorted, limit))[v] <= multiset(kept)[v] <= multiset(views)[v] {
      FirstOnes(sorted, limit, v);
    }
    forall v | matches(v) && Wanted(v, mode, edges, hops) && multiset(TakeFirst(sorted, limit))[v] < multiset(views)[v]
      ensures |TakeFirst(sorted, limit)| == limit && forall s :: s in TakeFirst(sorted, limit) ==> Before(s, v)
    {
      FirstOnes(sorted, limit, v);
    }
  }

  /** `_select_nodes` */
  method SelectNodes(views: seq<View>, matches: View -> bool, mode: Mode, edges: seq<Chains.Edge>, hops: nat, limit: nat)
    returns (selected: seq<View>)
    ensures Selected(views, matches, mode, edges, hops, limit, selected)
  {
    var keep: View -> bool;
    match mode {
      case Everything => keep := (v: View) => matches(v);
      case Orphans => keep := (v: View) => matches(v) && v.isOrphan;
      case PendingOnly => keep := (v: View) => matches(v) && v.hasPending;
      case Around(center) =>
        var ids := NeighborhoodIds(center, edges, hops);
        keep := (v: View) => matches(v) && v.node.nodeId in ids;
    }
    var kept := Filter(keep, views);
    KeptIs(views, matches, mode, edges, hops, keep, kept);
    SortedPrefix(views, matches, mode, edges, hops, limit, kept);
    selected := TakeFirst(Sort(Before, kept), limit);
  }

  // ---- the edges between them ----

  function NodeIds(views: seq<View>): (ids: set<string>)
    ensures forall x :: x in ids <==> exists v :: v in views && v.node.nodeId == x
  {
    set v | v in views :: v.node.nodeId
  }

  /** The edges with both ends among some nodes. */
  function Induced(edges: seq<Chains.Edge>, ids: set<string>): seq<Chains.Edge> {
    Filter((e: Chains.Edge) => e.source in ids && e.target in ids, edges)
  }

  /** `_filter_edges` on one list, empty when the filter asks for the other status. */
  function Shown(edges: seq<Chains.Edge>, filter: EdgeFilter, pending: bool): seq<Chains.Edge> {
    match filter
    case AllEdges => edges
    case ApprovedEdges => if pending then [] else edges
    case PendingEdges => if pending then edges else []
    case Incoming(center) => Filter((e: Chains.Edge) => e.target == center, edges)
    case Outgoing(center) => Filter((e: Chains.Edge) => e.source == center, edges)
  }

  /** What an edge filter lets through, of the approved and of the pending edges. */
  predicate Passes(filter: EdgeFilter, e: Chains.Edge, pending: bool) {
    match filter
    case AllEdges => true
    case ApprovedEdges => !pending
    case PendingEdges => pending
    case Incoming(center) => e.target == center
    case Outgoing(center) => e.source == center
  }

  /** Each edge that joins two nodes shown and passes the filter is shown as often as it is listed, and no other. */
  ghost predicate ShowsEdges(shown: seq<Chains.Edge>, edges: seq<Chains.Edge>, ids: set<string>, filter: EdgeFilter, pending: bool) {
    forall e :: multiset(shown)[e] == if e.source in ids && e.target in ids && Passes(filter, e, pending) then multiset(edges)[e] else 0
  }

  lemma InducedCounts(edges: seq<Chains.Edge>, ids: set<string>, e: Chains.Edge)
    ensures multiset(Induced(edges, ids))[e] == if e.source in ids && e.target in ids then multiset(edges)[e] else 0
  {
    FilterCounts((x: Chains.Edge) => x.source in ids && x.target in ids, edges, e);
  }

  lemma ShownCounts(edges: seq<Chains.Edge>, filter: EdgeFilter, pending: bool, e: Chains.Edge)
    ensures multiset(Shown(edges, filter, pending))[e] == if Passes(filter, e, pending) then multiset(edges)[e] else 0
  {
    match filter
    case AllEdges =>
    case ApprovedEdges =>
    case PendingEdges =>
    case Incoming(center) => FilterCounts((x: Chains.Edge) => x.target == center, edges, e);
    case Outgoing(center) => FilterCounts((x: Chains.Edge) => x.source == center, edges, e);
  }

  lemma ShownShows(edges: seq<Chains.Edge>, ids: set<string>, filter: EdgeFilter, pending: bool)
    ensures ShowsEdges(Shown(Induced(edges, ids), filter, pending), edges, ids, filter, pending)
  {
    forall e ensures multiset(Shown(Induced(edges, ids), filter, pending))[e] ==
                     if e.source in ids && e.target in ids && Passes(filter, e, pending) then multiset(edges)[e] else 0 {
      InducedCounts(edges, ids, e);
      ShownCounts(Induced(edges, ids), filter, pending, e);
    }
  }

  function Ids(nodes: seq<Node>): (ids: set<string>)
    ensures forall x :: x in ids <==> exists n :: n in nodes && n.nodeId == x
  {
    set n | n in nodes :: n.nodeId
  }

  ghost predicate ViewsOf(nodes: seq<Node>, approved: seq<Chains.Edge>, pending: seq<Chains.Edge>, views: seq<View>) {
    |views| == |nodes| && forall i :: 0 <= i < |nodes| ==> views[i].node == nodes[i] && ViewRight(views[i], approved, pending)
  }

  /** Below the limit everything wanted is there. */
  lemma BelowLimit(views: seq<View>, matches: View -> bool, mode: Mode, edges: seq<Chains.Edge>, hops: nat, limit: nat, selected: seq<View>, v: View)
    requires Selected(views, matches, mode, edges, hops, limit, selected) && |selected| < limit
    requires v in views && matches(v) && Wanted(v, mode, edges, hops)
    ensures v in selected
  {
    assert multiset(views)[v] > 0;
    assert multiset(selected)[v] > 0;
  }

  /** What a projection promises about the known edges. */
  ghost predicate IsProjection(nodes: seq<Node>, approved: seq<Chains.Edge>, pending: seq<Chains.Edge>, matches: View -> bool,
                               mode: Mode, hops: nat, limit: nat, filter: EdgeFilter, p: Projected)
  {
    && (exists views :: ViewsOf(nodes, approved, pending, views) && Selected(views, matches, mode, approved + pending, hops, limit, p.nodes))
    && p.approved == Shown(Induced(approved, NodeIds(p.nodes)), filter, false)
    && p.pending == Shown(Induced(pending, NodeIds(p.nodes)), filter, true)
    && ShowsEdges(p.approved, approved, NodeIds(p.nodes), filter, false) && ShowsEdges(p.pending, pending, NodeIds(p.nodes), filter, true)
    && (p.truncated <==> |p.nodes| < |nodes|)
  }

  /** `build_graph_projection`. Edges with an unknown end are dropped first; hops are capped at three, nodes at five hundred. */
  method BuildGraphProjection(nodes: seq<Node>, approved: seq<Chains.Edge>, pending: seq<Chains.Edge>, matches: View -> bool,
                              mode: Mode, hops: int, limit: int, filter: EdgeFilter)
    returns (p: Projected)
    ensures IsProjection(nodes, Induced(approved, Ids(nodes)), Induced(pending, Ids(nodes)), matches, mode,
                         Clamp(hops, 1, 3), Clamp(limit, 1, 500), filter, p)
  {
    var knownApproved, knownPending := Induced(approved, Ids(nodes)), Induced(pending, Ids(nodes));
    var degree := DegreeByNode(knownApproved, knownPending);
    var views := Views(nodes, degree);
    forall i | 0 <= i < |nodes| ensures views[i].node == nodes[i] && ViewRight(views[i], knownApproved, knownPending) {
      ViewsRight(nodes[i], degree, knownApproved, knownPending);
    }
    var selected := SelectNodes(views, matches, mode, knownApproved + knownPending, Clamp(hops, 1, 3), Clamp(limit, 1, 500));
    var ids := NodeIds(selected);
    p := Projected(selected, Shown(Induced(knownApproved, ids), filter, false), Shown(Induced(knownPending, ids), filter, true),
                   |selected| < |views|);
    ShownShows(knownApproved, ids, filter, false);
    ShownShows(knownPending, ids, filter, true);
  }

  // ---- what the projection shows ----

  lemma ShownJoins(edges: seq<Chains.Edge>, ids: set<string>, filter: EdgeFilter, pending: bool, e: Chains.Edge)
    ensures e in Shown(Induced(edges, ids), filter, pending) ==> e in edges && e.source in ids && e.target in ids
  {
  }

  /** Every edge shown joins two nodes shown. */
  lemma ShownEdgesJoinShownNodes(nodes: seq<Node>, approved: seq<Chains.Edge>, pending: seq<Chains.Edge>, matches: View -> bool,
                                 mode: Mode, hops: nat, limit: nat, filter: EdgeFilter, p: Projected, e: Chains.Edge)
    requires IsProjection(nodes, approved, pending, matches, mode, hops, limit, filter, p) && e in p.approved + p.pending
    ensures e in approved + pending && e.source in NodeIds(p.nodes) && e.target in NodeIds(p.nodes)
  {
    ShownJoins(approved, NodeIds(p.nodes), filter, false, e);
    ShownJoins(pending, NodeIds(p.nodes), filter, true, e);
  }

  /** The orphan view shows no edges at all. */
  lemma OrphansShowNoEdges(nodes: seq<Node>, approved: seq<Chains.Edge>, pending: seq<Chains.Edge>, matches: View -> bool,
                           hops: nat, limit: nat, filter: EdgeFilter, p: Projected)
    requires IsProjection(nodes, approved, pending, matches, Orphans, hops, limit, filter, p)
    ensures p.approved + p.pending == []
  {
    if p.approved + p.pending != [] {
      var e := (p.approved + p.pending)[0];
      ShownEdgesJoinShownNodes(nodes, approved, pending, matches, Orphans, hops, limit, filter, p, e);
      OrphanHasNoEdge(nodes, approved, pending, matches, hops, limit, filter, p, e);
    }
  }

  lemma OrphanHasNoEdge(nodes: seq<Node>, approved: seq<Chains.Edge>, pending: seq<Chains.Edge>, matches: View -> bool,
                        hops: nat, limit: nat, filter: EdgeFilter, p: Projected, e: Chains.Edge)
    requires IsProjection(nodes, approved, pending, matches, Orphans, hops, limit, filter, p) && e in approved + pending
    ensures e.source !in NodeIds(p.nodes)
  {
    var views :| ViewsOf(nodes, approved, pending, views) && Selected(views, matches, Orphans, approved + pending, hops, limit, p.nodes);
    forall v | v in p.nodes ensures v.node.nodeId != e.source {
      var i :| 0 <= i < |views| && views[i] == v;
      assert ViewRight(views[i], approved, pending);
    }
  }

  ghost predicate EndsKnown(edges: seq<Chains.Edge>, ids: set<string>) {
    forall e :: e in edges ==> e.source in ids && e.target in ids
  }

  /** Without search and below the limit, the neighbourhood view shows exactly the known nodes within the hops. */
  lemma NeighborhoodShowsBall(nodes: seq<Node>, approved: seq<Chains.Edge>, pending: seq<Chains.Edge>, matches: View -> bool,
                              center: string, hops: nat, limit: nat, filter: EdgeFilter, p: Projected, x: string)
    requires IsProjection(nodes, approved, pending, matches, Around(center), hops, limit, filter, p)
    requires |p.nodes| < limit && forall v :: matches(v)
    ensures x in NodeIds(p.nodes) <==> x in Ids(nodes) && Near(approved + pending, center, x, hops)
  {
    var views :| ViewsOf(nodes, approved, pending, views) && Selected(views, matches, Around(center), approved + pending, hops, limit, p.nodes);
    if x in NodeIds(p.nodes) {
      var v :| v in p.nodes && v.node.nodeId == x;
      ShownViewIsKnown(nodes, approved, pending, views, v);
      assert Wanted(v, Around(center), approved + pending, hops);
    }
    if x in Ids(nodes) && Near(approved + pending, center, x, hops) {
      var v := KnownHasView(nodes, approved, pending, views, x);
      BelowLimit(views, matches, Around(center), approved + pending, hops, limit, p.nodes, v);
    }
  }

  lemma ShownViewIsKnown(nodes: seq<Node>, approved: seq<Chains.Edge>, pending: seq<Chains.Edge>, views: seq<View>, v: View)
    requires ViewsOf(nodes, approved, pending, views) && v in views
    ensures v.node.nodeId in Ids(nodes)
  {
    var i :| 0 <= i < |views| && views[i] == v;
    assert nodes[i] in nodes;
  }

  lemma KnownHasView(nodes: seq<Node>, approved: seq<Chains.Edge>, pending: seq<Chains.Edge>, views: seq<View>, x: string) returns (v: View)
    requires ViewsOf(nodes, approved, pending, views) && x in Ids(nodes)
    ensures v in views && v.node.nodeId == x
  {
    var n :| n in nodes && n.nodeId == x;
    var i :| 0 <= i < |nodes| && nodes[i] == n;
    v := views[i];
  }

  ghost function StepsInto(adj: Adjacency, u: string, ids: set<string>): set<string> {
    set v | v in ids && v in Succ(adj, u)
  }

  /** The steps of an adjacency between some nodes. */
  ghost function Restricted(adj: Adjacency, ids: set<string>): (r: Adjacency)
    ensures forall u, v :: v in Succ(r, u) <==> u in ids && v in ids && v in Succ(adj, u)
  {
    var r := RestrictedFrom(adj, ids, ids);
    assert forall u :: Succ(r, u) == if u in ids then StepsInto(adj, u, ids) else {};
    r
  }

  ghost function RestrictedFrom(adj: Adjacency, from: set<string>, ids: set<string>): (r: Adjacency)
    ensures r.Keys == from && forall u :: u in from ==> r[u] == StepsInto(adj, u, ids)
  {
    if from == {} then map[]
    else
      var u :| u in from;
      RestrictedFrom(adj, from - {u}, ids)[u := StepsInto(adj, u, ids)]
  }

  lemma RestrictedIsInduced(adj: Adjacency, edges: seq<Chains.Edge>, ids: set<string>)
    requires UndirectedOf(adj, edges)
    ensures UndirectedOf(Restricted(adj, ids), Induced(edges, ids))
  {
    forall u, v ensures v in Succ(Restricted(adj, ids), u) <==> Touches(Induced(edges, ids), u, v) {
      assert v in Succ(adj, u) <==> Touches(edges, u, v);
      if u in ids && v in ids && Touches(edges, u, v) {
        var e :| e in edges && ((e.source == u && e.target == v) || (e.source == v && e.target == u));
        assert e in Induced(edges, ids);
      }
    }
  }

  /** Every node of a walk of at most `hops` steps is near its start, and if the walk has a step, known. */
  lemma WalkStaysNear(adj: Adjacency, edges: seq<Chains.Edge>, known: set<string>, center: string, hops: nat, walk: seq<string>, i: nat)
    requires UndirectedOf(adj, edges) && EndsKnown(edges, known)
    requires IsWalk(adj, walk) && walk[0] == center && 1 < |walk| <= hops + 1 && i < |walk|
    ensures walk[i] in known && Near(edges, center, walk[i], hops)
  {
    var prefix := walk[..i + 1];
    assert WalkBetween(adj, center, walk[i], prefix);
    assert Within(adj, center, walk[i], hops);
    var j := if i == 0 then 0 else i - 1;
    assert walk[j + 1] in Succ(adj, walk[j]);
    assert Touches(edges, walk[j], walk[j + 1]);
  }

  /** What is near over all edges is near over the edges among a set that holds everything known and near. */
  lemma NearWithin(edges: seq<Chains.Edge>, known: set<string>, ids: set<string>, center: string, hops: nat, x: string)
    requires EndsKnown(edges, known) && Near(edges, center, x, hops)
    requires forall y :: y in known && Near(edges, center, y, hops) ==> y in ids
    ensures Near(Induced(edges, ids), center, x, hops)
  {
    var adj :| UndirectedOf(adj, edges) && Within(adj, center, x, hops);
    var walk :| WalkBetween(adj, center, x, walk) && |walk| - 1 <= hops;
    RestrictedIsInduced(adj, edges, ids);
    forall i, j | 0 <= i < j < |walk| && j == i + 1 ensures walk[j] in Succ(Restricted(adj, ids), walk[i]) {
      WalkStaysNear(adj, edges, known, center, hops, walk, i);
      WalkStaysNear(adj, edges, known, center, hops, walk, j);
    }
    assert WalkBetween(Restricted(adj, ids), center, x, walk);
  }

  lemma InducedConcat(a: seq<Chains.Edge>, b: seq<Chains.Edge>, ids: set<string>, u: string, v: string)
    ensures Touches(Induced(a + b, ids), u, v) <==> Touches(Induced(a, ids) + Induced(b, ids), u, v)
  {
    assert forall e :: e in Induced(a + b, ids) <==> e in Induced(a, ids) + Induced(b, ids);
  }

  /** Without search and below the limit, every node of the neighbourhood view is joined to the centre by at most `hops` of
      the edges shown. */
  lemma NeighborhoodIsConnected(nodes: seq<Node>, approved: seq<Chains.Edge>, pending: seq<Chains.Edge>, matches: View -> bool,
                                center: string, hops: nat, limit: nat, p: Projected, x: string)
    requires IsProjection(nodes, approved, pending, matches, Around(center), hops, limit, AllEdges, p)
    requires |p.nodes| < limit && forall v :: matches(v)
    requires EndsKnown(approved + pending, Ids(nodes)) && x in NodeIds(p.nodes)
    ensures Near(p.approved + p.pending, center, x, hops)
  {
    var edges, ids := approved + pending, NodeIds(p.nodes);
    forall y ensures y in ids <==> y in Ids(nodes) && Near(edges, center, y, hops) {
      NeighborhoodShowsBall(nodes, approved, pending, matches, center, hops, limit, AllEdges, p, y);
    }
    NearWithin(edges, Ids(nodes), ids, center, hops, x);
    forall u, v ensures Touches(Induced(edges, ids), u, v) <==> Touches(p.approved + p.pending, u, v) {
      InducedConcat(approved, pending, ids, u, v);
    }
    NearSameTouches(Induced(edges, ids), p.approved + p.pending, center, x, hops);
  }

  lemma NearSameTouches(a: seq<Chains.Edge>, b: seq<Chains.Edge>, center: string, x: string, hops: nat)
    requires Near(a, center, x, hops) && forall u, v :: Touches(a, u, v) <==> Touches(b, u, v)
    ensures Near(b, center, x, hops)
  {
    var adj :| UndirectedOf(adj, a) && Within(adj, center, x, hops);
    forall u, v ensures v in Succ(adj, u) <==> Touches(b, u, v) {
      assert v in Succ(adj, u) <==> Touches(a, u, v);
    }
  }
}
