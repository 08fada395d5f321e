/** The two layout branches of the relationship view. A spot is the slot a node is drawn at; the trigonometry that
    turns a slot into pixels is left to the renderer. */
module WorkbenchLayout {
  import opened Distances
  import opened GraphWorkbench
  import opened Lists
  import opened Sorting

  datatype Spot =
    | Middle
    | Ring(ring: nat, index: nat, total: nat)
    | Band(band: nat, index: nat)
    | CellMiddle(cell: nat)
    | CellRing(cell: nat, index: nat, total: nat)
    | Shelf(index: nat)
    | Pinned(x: real, y: real)

  type Positions = map<string, Spot>

  /** A comparator sort: any function that only rearranges. */
  ghost predicate Rearranges<T(!new)>(order: seq<T> -> seq<T>) {
    forall xs :: multiset(order(xs)) == multiset(xs)
  }

  lemma IdsOfRearranged(order: seq<Node> -> seq<Node>, xs: seq<Node>)
    requires Rearranges(order)
    ensures Ids(order(xs)) == Ids(xs)
  {
    SameMembers(order(xs), xs);
  }

  /** The first `n` nodes of an order, each put at the slot of its index. */
  function PlaceAll(before: Positions, ordered: seq<Node>, slot: nat -> Spot, n: nat): Positions
    requires n <= |ordered|
  {
    if n == 0 then before else PlaceAll(before, ordered, slot, n - 1)[ordered[n - 1].nodeId := slot(n - 1)]
  }

  lemma IdsTake(ordered: seq<Node>, n: nat)
    requires 0 < n <= |ordered|
    ensures Ids(ordered[..n]) == Ids(ordered[..n - 1]) + {ordered[n - 1].nodeId}
  {
    assert ordered[..n] == ordered[..n - 1] + [ordered[n - 1]];
  }

  /** Every node has a slot of the order, and what is not in the order stays where it was. */
  lemma {:induction false} PlacedSlots(before: Positions, ordered: seq<Node>, slot: nat -> Spot, n: nat, v: string)
    requires n <= |ordered|
    ensures PlaceAll(before, ordered, slot, n).Keys == before.Keys + Ids(ordered[..n])
    ensures v in before && v !in Ids(ordered[..n]) ==> PlaceAll(before, ordered, slot, n)[v] == before[v]
    ensures v in Ids(ordered[..n]) ==>
              exists k: nat :: k < n && ordered[k].nodeId == v && PlaceAll(before, ordered, slot, n)[v] == slot(k)
  {
    if n > 0 {
      PlacedSlots(before, ordered, slot, n - 1, v);
      IdsTake(ordered, n);
    }
  }

  /** `ordered.forEach((node, index) => positions.set(node.node_id, ...))` */
  method PlaceEach(before: Positions, nodes: seq<Node>, order: seq<Node> -> seq<Node>, slot: nat -> Spot)
    returns (positions: Positions)
    requires Rearranges(order)
    ensures positions == PlaceAll(before, order(nodes), slot, |order(nodes)|)
    ensures positions.Keys == before.Keys + Ids(nodes)
    ensures forall v :: v in before && v !in Ids(nodes) ==> positions[v] == before[v]
    ensures forall v :: v in Ids(nodes) ==> exists i: nat :: positions[v] == slot(i)
  {
    positions := before;
    var ordered := order(nodes);
    for i := 0 to |ordered|
      invariant positions == PlaceAll(before, ordered, slot, i)
    {
      positions := positions[ordered[i].nodeId := slot(i)];
    }
    EachPlaced(before, nodes, order, slot);
  }

  lemma EachPlaced(before: Positions, nodes: seq<Node>, order: seq<Node> -> seq<Node>, slot: nat -> Spot)
    requires Rearranges(order)
    ensures var positions := PlaceAll(before, order(nodes), slot, |order(nodes)|);
            && positions.Keys == before.Keys + Ids(nodes)
            && (forall v :: v in before && v !in Ids(nodes) ==> positions[v] == before[v])
            && (forall v :: v in Ids(nodes) ==> exists i: nat :: positions[v] == slot(i))
  {
    var ordered := order(nodes);
    IdsOfRearranged(order, nodes);
    assert ordered[..|ordered|] == ordered;
    PlacedSlots(before, ordered, slot, |ordered|, "");
    forall v | v in before && v !in Ids(nodes) ensures PlaceAll(before, ordered, slot, |ordered|)[v] == before[v] {
      PlacedSlots(before, ordered, slot, |ordered|, v);
    }
    forall v | v in Ids(nodes) ensures exists i: nat :: PlaceAll(before, ordered, slot, |ordered|)[v] == slot(i) {
      PlacedSlots(before, ordered, slot, |ordered|, v);
    }
  }

  function FirstWithId(nodes: seq<Node>, id: string): (r: seq<Node>)
    ensures |r| <= 1
    ensures r == [] <==> id !in Ids(nodes)
    ensures r != [] ==> r[0] in nodes && r[0].nodeId == id
  {
    if nodes == [] then [] else if nodes[0].nodeId == id then [nodes[0]] else FirstWithId(nodes[1..], id)
  }

  /** The selected node if it is among these, otherwise the first in the ranking. */
  function SelectCenter(nodes: seq<Node>, rank: seq<Node> -> seq<Node>, selectedId: string): (center: Node)
    requires nodes != [] && Rearranges(rank)
    ensures center in nodes
    ensures selectedId in Ids(nodes) ==> center.nodeId == selectedId
  {
    SameMembers(rank(nodes), nodes);
    var chosen := FirstWithId(nodes, selectedId);
    if chosen != [] then chosen[0] else assert rank(nodes)[0] in rank(nodes); rank(nodes)[0]
  }

  datatype Groups = Groups(oneHop: seq<Node>, twoHop: seq<Node>, outer: seq<Node>, islands: seq<Node>, orphans: seq<Node>)

  /** Rings by distance from the centre, then the nodes the centre does not reach. Every node but the centre is in a
      group: nothing else is at distance zero. */
  function RadialGroups(nodes: seq<Node>, center: string, distances: map<string, nat>, degree: map<string, nat>): Groups {
    var connected := Filter((n: Node) => n.nodeId != center && n.nodeId in distances, nodes);
    var disconnected := Filter((n: Node) => n.nodeId != center && n.nodeId !in distances, nodes);
    var orphans := Filter((n: Node) => n.isOrphan || n.nodeId !in degree || degree[n.nodeId] == 0, disconnected);
    Groups(
      Filter((n: Node) => n.nodeId in distances && distances[n.nodeId] == 1, connected),
      Filter((n: Node) => n.nodeId in distances && distances[n.nodeId] == 2, connected),
      Filter((n: Node) => n.nodeId in distances && distances[n.nodeId] > 2, connected),
      Filter((n: Node) => n !in orphans, disconnected),
      orphans)
  }

  lemma NodeHasGroup(nodes: seq<Node>, n: Node, center: string, distances: map<string, nat>, degree: map<string, nat>)
    requires n in nodes && n.nodeId != center && (n.nodeId in distances ==> distances[n.nodeId] != 0)
    ensures Grouped(RadialGroups(nodes, center, distances, degree), n)
  {
  }

  lemma GroupsHoldNodes(nodes: seq<Node>, n: Node, center: string, distances: map<string, nat>, degree: map<string, nat>)
    requires Grouped(RadialGroups(nodes, center, distances, degree), n)
    ensures n in nodes
  {
  }

  predicate Grouped(g: Groups, n: Node) {
    n in g.oneHop || n in g.twoHop || n in g.outer || n in g.islands || n in g.orphans
  }

  function RingIds(g: Groups): set<string> {
    Ids(g.oneHop) + Ids(g.twoHop) + Ids(g.outer)
  }

  function GroupIds(g: Groups): set<string> {
    RingIds(g) + Ids(g.islands) + Ids(g.orphans)
  }

  lemma GroupIdsAre(g: Groups, nodes: seq<Node>, center: string)
    requires center in Ids(nodes)
    requires forall n :: Grouped(g, n) ==> n in nodes
    requires forall n :: n in nodes && n.nodeId != center ==> Grouped(g, n)
    ensures {center} + GroupIds(g) == Ids(nodes)
  {
    forall v | v in Ids(nodes) && v != center ensures v in GroupIds(g) {
      var n :| n in nodes && n.nodeId == v;
      assert Grouped(g, n);
    }
    forall v | v in GroupIds(g) ensures v in Ids(nodes) {
      var n :| Grouped(g, n) && n.nodeId == v;
    }
  }

  lemma RadialGroupsCover(nodes: seq<Node>, center: string, distances: map<string, nat>, degree: map<string, nat>,
                          adjacency: Lookup)
    requires center in Ids(nodes)
    requires forall v :: v in distances ==> Distance(Steps(adjacency), center, v, distances[v])
    ensures {center} + GroupIds(RadialGroups(nodes, center, distances, degree)) == Ids(nodes)
  {
    var g := RadialGroups(nodes, center, distances, degree);
    forall n | n in nodes && n.nodeId != center ensures Grouped(g, n) {
      if n.nodeId in distances {
        OnlyCenterAtZero(Steps(adjacency), center, n.nodeId, distances[n.nodeId]);
      }
      NodeHasGroup(nodes, n, center, distances, degree);
    }
    forall n | Grouped(g, n) ensures n in nodes { GroupsHoldNodes(nodes, n, center, distances, degree); }
    GroupIdsAre(g, nodes, center);
  }

  lemma OnlyCenterAtZero(adj: Adjacency, center: string, v: string, d: nat)
    requires Distance(adj, center, v, d) && v != center
    ensures d != 0
  {
    WithinZero(adj, center, v);
  }

  /** The ids of each group lie at its distance from the centre. */
  ghost predicate GroupsFit(g: Groups, distances: map<string, nat>) {
    && (forall v :: v in Ids(g.oneHop) ==> v in distances && distances[v] == 1)
    && (forall v :: v in Ids(g.twoHop) ==> v in distances && distances[v] == 2)
    && (forall v :: v in Ids(g.outer) ==> v in distances && distances[v] > 2)
    && (forall v :: v in Ids(g.islands) + Ids(g.orphans) ==> v !in distances)
  }

  lemma ReachedGroupsFit(nodes: seq<Node>, n: Node, center: string, distances: map<string, nat>, degree: map<string, nat>)
    ensures var g := RadialGroups(nodes, center, distances, degree);
            && (n in g.oneHop ==> n.nodeId in distances && distances[n.nodeId] == 1 && n.nodeId != center)
            && (n in g.twoHop ==> n.nodeId in distances && distances[n.nodeId] == 2 && n.nodeId != center)
            && (n in g.outer ==> n.nodeId in distances && distances[n.nodeId] > 2 && n.nodeId != center)
  {
  }

  lemma OtherGroupsFit(nodes: seq<Node>, n: Node, center: string, distances: map<string, nat>, degree: map<string, nat>)
    ensures var g := RadialGroups(nodes, center, distances, degree);
            n in g.islands || n in g.orphans ==> n.nodeId !in distances && n.nodeId != center
  {
  }

  lemma RadialGroupsFit(nodes: seq<Node>, center: string, distances: map<string, nat>, degree: map<string, nat>)
    ensures GroupsFit(RadialGroups(nodes, center, distances, degree), distances)
    ensures center !in GroupIds(RadialGroups(nodes, center, distances, degree))
  {
    var g := RadialGroups(nodes, center, distances, degree);
    forall n: Node
      ensures n in g.oneHop ==> n.nodeId in distances && distances[n.nodeId] == 1 && n.nodeId != center
      ensures n in g.twoHop ==> n.nodeId in distances && distances[n.nodeId] == 2 && n.nodeId != center
      ensures n in g.outer ==> n.nodeId in distances && distances[n.nodeId] > 2 && n.nodeId != center
      ensures n in g.islands || n in g.orphans ==> n.nodeId !in distances && n.nodeId != center
    {
      ReachedGroupsFit(nodes, n, center, distances, degree);
      OtherGroupsFit(nodes, n, center, distances, degree);
    }
    IdsFit(g, center, distances);
  }

  lemma IdsFit(g: Groups, center: string, distances: map<string, nat>)
    requires forall n :: n in g.oneHop ==> n.nodeId in distances && distances[n.nodeId] == 1 && n.nodeId != center
    requires forall n :: n in g.twoHop ==> n.nodeId in distances && distances[n.nodeId] == 2 && n.nodeId != center
    requires forall n :: n in g.outer ==> n.nodeId in distances && distances[n.nodeId] > 2 && n.nodeId != center
    requires forall n :: n in g.islands || n in g.orphans ==> n.nodeId !in distances && n.nodeId != center
    ensures GroupsFit(g, distances) && center !in GroupIds(g)
  {
  }

  /** A node that the centre reaches is on the ring of its distance, the third for all beyond two; the others are in a band. */
  predicate Fits(distances: map<string, nat>, v: string, spot: Spot) {
    if v in distances then spot.Ring? && spot.ring == (if distances[v] < 3 then distances[v] else 3) else spot.Band?
  }

  method GroupByDistance(nodes: seq<Node>, center: string, degree: map<string, nat>, adjacency: Lookup)
    returns (g: Groups, distances: map<string, nat>)
    requires center in Ids(nodes) && adjacency.Keys == Ids(nodes) && Mutual(adjacency)
    ensures {center} + GroupIds(g) == Ids(nodes) && center !in GroupIds(g) && GroupsFit(g, distances)
    ensures BandGroups(g, nodes, center, distances, degree)
    ensures forall v :: v in distances <==> Reaches(Steps(adjacency), center, v)
    ensures forall v :: v in distances ==> Distance(Steps(adjacency), center, v, distances[v])
  {
    distances := ShortestDistances(center, adjacency);
    g := RadialGroups(nodes, center, distances, degree);
    RadialGroupsCover(nodes, center, distances, degree, adjacency);
    RadialGroupsFit(nodes, center, distances, degree);
    BandsIff(nodes, center, distances, degree);
  }

  /** The centre in the middle, every other node on the ring of its distance or, if the centre does not reach it, in a band. */
  ghost predicate Radial(positions: Positions, adjacency: Lookup, center: string, distances: map<string, nat>) {
    && center in positions && positions[center] == Middle
    && (forall v :: v in distances <==> Reaches(Steps(adjacency), center, v))
    && (forall v :: v in distances ==> Distance(Steps(adjacency), center, v, distances[v]))
    && (forall v :: v in positions && v != center ==> Fits(distances, v, positions[v]))
  }

  /** No visible edge ends at the node, or it is flagged as an orphan. */
  predicate Lone(n: Node, degree: map<string, nat>) {
    n.isOrphan || n.nodeId !in degree || degree[n.nodeId] == 0
  }

  /** Of the nodes that the centre does not reach, the lone ones are in the lower band and the others in the upper. */
  ghost predicate Banded(positions: Positions, nodes: seq<Node>, center: string, distances: map<string, nat>, degree: map<string, nat>) {
    forall n :: n in nodes && n.nodeId != center && n.nodeId !in distances ==>
      && n.nodeId in positions && positions[n.nodeId].Band?
      && positions[n.nodeId].band == if exists m :: m in nodes && m.nodeId == n.nodeId && Lone(m, degree) then 1 else 0
  }

  /** Among the nodes that the centre does not reach, the lone ones are the orphans and the others the islands. */
  ghost predicate BandGroups(g: Groups, nodes: seq<Node>, center: string, distances: map<string, nat>, degree: map<string, nat>) {
    && (forall n :: n in g.orphans <==> n in nodes && n.nodeId != center && n.nodeId !in distances && Lone(n, degree))
    && (forall n :: n in g.islands <==> n in nodes && n.nodeId != center && n.nodeId !in distances && !Lone(n, degree))
  }

  lemma BandsIff(nodes: seq<Node>, center: string, distances: map<string, nat>, degree: map<string, nat>)
    ensures BandGroups(RadialGroups(nodes, center, distances, degree), nodes, center, distances, degree)
  {
  }

  lemma GroupsBand(positions: Positions, g: Groups, nodes: seq<Node>, center: string, distances: map<string, nat>, degree: map<string, nat>)
    requires BandGroups(g, nodes, center, distances, degree)
    requires forall v :: v in Ids(g.islands) + Ids(g.orphans) ==>
               v in positions && positions[v].Band? && positions[v].band == if v in Ids(g.orphans) then 1 else 0
    ensures Banded(positions, nodes, center, distances, degree)
  {
    forall n | n in nodes && n.nodeId != center && n.nodeId !in distances
      ensures n.nodeId in positions && positions[n.nodeId].Band?
              && positions[n.nodeId].band == if exists m :: m in nodes && m.nodeId == n.nodeId && Lone(m, degree) then 1 else 0
    {
      assert n in g.orphans || n in g.islands;
    }
  }

  lemma GroupsRadial(positions: Positions, g: Groups, adjacency: Lookup, center: string, distances: map<string, nat>)
    requires positions.Keys == {center} + GroupIds(g) && positions[center] == Middle && FitsAll(distances, GroupIds(g), positions)
    requires forall v :: v in distances <==> Reaches(Steps(adjacency), center, v)
    requires forall v :: v in distances ==> Distance(Steps(adjacency), center, v, distances[v])
    ensures Radial(positions, adjacency, center, distances)
  {
  }

  method RadialPositions(nodes: seq<Node>, order: seq<Node> -> seq<Node>, rank: seq<Node> -> seq<Node>,
                         selectedId: string, degree: map<string, nat>, adjacency: Lookup)
    returns (positions: Positions, center: string, ghost distances: map<string, nat>)
    requires nodes != [] && Rearranges(order) && Rearranges(rank)
    requires adjacency.Keys == Ids(nodes) && Mutual(adjacency)
    ensures positions.Keys == Ids(nodes)
    ensures selectedId in Ids(nodes) ==> center == selectedId
    ensures Radial(positions, adjacency, center, distances)
    ensures Banded(positions, nodes, center, distances, degree)
  {
    center := SelectCenter(nodes, rank, selectedId).nodeId;
    positions := map[center := Middle];
    var g, found := GroupByDistance(nodes, center, degree, adjacency);
    distances := found;
    positions := PlaceGroups(positions, g, order, found);
    GroupsRadial(positions, g, adjacency, center, distances);
    GroupsBand(positions, g, nodes, center, distances, degree);
  }

  ghost predicate FitsAll(distances: map<string, nat>, ids: set<string>, positions: Positions) {
    forall v :: v in ids ==> v in positions && Fits(distances, v, positions[v])
  }

  method PlaceGroup(before: Positions, nodes: seq<Node>, order: seq<Node> -> seq<Node>, slot: nat -> Spot,
                    ghost distances: map<string, nat>, ghost placed: set<string>)
    returns (positions: Positions)
    requires Rearranges(order) && FitsAll(distances, placed, before)
    requires forall v, k: nat :: v in Ids(nodes) ==> Fits(distances, v, slot(k))
    ensures positions.Keys == before.Keys + Ids(nodes)
    ensures forall v :: v in before && v !in Ids(nodes) ==> positions[v] == before[v]
    ensures FitsAll(distances, placed + Ids(nodes), positions)
    ensures forall v :: v in Ids(nodes) ==> exists i: nat :: positions[v] == slot(i)
  {
    positions := PlaceEach(before, nodes, order, slot);
  }

  method PlaceRings(before: Positions, g: Groups, order: seq<Node> -> seq<Node>, ghost distances: map<string, nat>)
    returns (positions: Positions)
    requires Rearranges(order) && GroupsFit(g, distances)
    ensures positions.Keys == before.Keys + RingIds(g)
    ensures forall v :: v in before && v !in RingIds(g) ==> positions[v] == before[v]
    ensures FitsAll(distances, RingIds(g), positions)
  {
    positions := PlaceGroup(before, g.oneHop, order, (i: nat) => Ring(1, i, |g.oneHop|), distances, {});
    positions := PlaceGroup(positions, g.twoHop, order, (i: nat) => Ring(2, i, |g.twoHop|), distances, Ids(g.oneHop));
    positions := PlaceGroup(positions, g.outer, order, (i: nat) => Ring(3, i, |g.outer|), distances, Ids(g.oneHop) + Ids(g.twoHop));
  }

  method PlaceGroups(before: Positions, g: Groups, order: seq<Node> -> seq<Node>, ghost distances: map<string, nat>)
    returns (positions: Positions)
    requires Rearranges(order) && GroupsFit(g, distances)
    ensures positions.Keys == before.Keys + GroupIds(g)
    ensures forall v :: v in before && v !in GroupIds(g) ==> positions[v] == before[v]
    ensures FitsAll(distances, GroupIds(g), positions)
    ensures forall v :: v in Ids(g.islands) + Ids(g.orphans) ==> positions[v].Band? && positions[v].band == if v in Ids(g.orphans) then 1 else 0
  {
    positions := PlaceRings(before, g, order, distances);
    positions := PlaceGroup(positions, g.islands, order, (i: nat) => Band(0, i), distances, RingIds(g));
    positions := PlaceGroup(positions, g.orphans, order, (i: nat) => Band(1, i), distances, RingIds(g) + Ids(g.islands));
  }

  function AllIds(components: seq<seq<Node>>): (s: set<string>)
    ensures forall v :: v in s <==> exists c :: c in components && v in Ids(c)
  {
    set c, n | c in components && n in c :: n.nodeId
  }

  function Flatten(components: seq<seq<Node>>): (r: seq<Node>)
    ensures Ids(r) == AllIds(components)
  {
    if components == [] then []
    else
      var rest := Flatten(components[1..]);
      assert Ids(components[0] + rest) == Ids(components[0]) + Ids(rest);
      assert AllIds(components) == Ids(components[0]) + AllIds(components[1..]) by {
        assert forall c :: c in components <==> c == components[0] || c in components[1..];
      }
      components[0] + rest
  }

  /** One node of the component in the middle of the cell, the selected one if it is there, and the others around it. */
  predicate Around(positions: Positions, component: seq<Node>, cell: nat, center: string) {
    && center in Ids(component) && center in positions && positions[center] == CellMiddle(cell)
    && forall v :: v in Ids(component) && v != center ==> v in positions && positions[v].CellRing? && positions[v].cell == cell
  }

  ghost predicate InCell(positions: Positions, component: seq<Node>, cell: nat, selectedId: string) {
    exists center :: Around(positions, component, cell, center) && (selectedId in Ids(component) ==> center == selectedId)
  }

  method PlaceComponent(before: Positions, component: seq<Node>, order: seq<Node> -> seq<Node>,
                        rank: seq<Node> -> seq<Node>, selectedId: string, cell: nat)
    returns (positions: Positions)
    requires component != [] && Rearranges(order) && Rearranges(rank)
    ensures positions.Keys == before.Keys + Ids(component)
    ensures InCell(positions, component, cell, selectedId)
    ensures forall v :: v in before && v !in Ids(component) ==> positions[v] == before[v]
  {
    var center := SelectCenter(component, rank, selectedId).nodeId;
    positions := before[center := CellMiddle(cell)];
    var rest := Filter((n: Node) => n.nodeId != center, component);
    RestOfComponent(component, center);
    positions := PlaceEach(positions, rest, order, (i: nat) => CellRing(cell, i, |rest|));
    assert Around(positions, component, cell, center);
  }

  lemma RestOfComponent(component: seq<Node>, center: string)
    requires center in Ids(component)
    ensures var rest := Filter((n: Node) => n.nodeId != center, component);
            Ids(component) == {center} + Ids(rest) && center !in Ids(rest)
  {
    var rest := Filter((n: Node) => n.nodeId != center, component);
    forall n | n in component ensures n.nodeId == center || n in rest {}
  }

  predicate Linked(component: seq<Node>, degree: map<string, nat>) {
    exists n :: n in component && n.nodeId in degree && degree[n.nodeId] > 0
  }

  lemma AllIdsTake(components: seq<seq<Node>>, i: nat)
    requires i < |components|
    ensures AllIds(components[..i + 1]) == AllIds(components[..i]) + Ids(components[i])
  {
    assert components[..i + 1] == components[..i] + [components[i]];
  }

  /** The components have no id in common. */
  ghost predicate Apart(components: seq<seq<Node>>) {
    forall i, j :: 0 <= i < j < |components| ==> Ids(components[i]) !! Ids(components[j])
  }

  lemma {:induction false} ApartOnce(components: seq<seq<Node>>, c: seq<Node>)
    requires Apart(components) && Ids(c) != {}
    ensures multiset(components)[c] <= 1
  {
    if components != [] {
      var rest := components[1..];
      assert components == [components[0]] + rest;
      forall i, j | 0 <= i < j < |rest| ensures Ids(rest[i]) !! Ids(rest[j]) {
        assert rest[i] == components[i + 1] && rest[j] == components[j + 1];
      }
      ApartOnce(rest, c);
      assert forall j :: 0 <= j < |rest| ==> Ids(components[0]) !! Ids(components[j + 1]) && rest[j] == components[j + 1];
    }
  }

  lemma TwiceCounted<T>(xs: seq<T>, i: nat, j: nat)
    requires i < j < |xs| && xs[i] == xs[j]
    ensures multiset(xs)[xs[i]] >= 2
  {
    assert xs == xs[..j] + xs[j..];
    assert xs[i] in xs[..j] && xs[j] in xs[j..];
  }

  /** Some of the components, in any order, are apart as well. */
  lemma SomeApart(components: seq<seq<Node>>, some: seq<seq<Node>>)
    requires Apart(components)
    requires forall c :: c in some ==> Ids(c) != {} && multiset(some)[c] <= multiset(components)[c]
    ensures Apart(some)
  {
    forall i, j | 0 <= i < j < |some| ensures Ids(some[i]) !! Ids(some[j]) {
      assert some[i] in multiset(some) && some[j] in multiset(some);
      assert some[i] in multiset(components) && some[j] in multiset(components);
      ApartOnce(components, some[i]);
      if some[i] == some[j] {
        TwiceCounted(some, i, j);
      }
      TwoApart(components, some[i], some[j]);
    }
  }

  lemma TwoApart(components: seq<seq<Node>>, c: seq<Node>, d: seq<Node>)
    requires Apart(components) && c in components && d in components && c != d
    ensures Ids(c) !! Ids(d)
  {
    var i :| 0 <= i < |components| && components[i] == c;
    var j :| 0 <= j < |components| && components[j] == d;
    assert if i < j then Ids(components[i]) !! Ids(components[j]) else Ids(components[j]) !! Ids(components[i]);
  }

  lemma InCellStays(before: Positions, positions: Positions, component: seq<Node>, cell: nat, selectedId: string)
    requires InCell(before, component, cell, selectedId)
    requires forall v :: v in Ids(component) && v in before ==> v in positions && positions[v] == before[v]
    ensures InCell(positions, component, cell, selectedId)
  {
    var center :| Around(before, component, cell, center) && (selectedId in Ids(component) ==> center == selectedId);
    assert Around(positions, component, cell, center);
  }

  method PlaceComponents(linked: seq<seq<Node>>, order: seq<Node> -> seq<Node>, rank: seq<Node> -> seq<Node>, selectedId: string)
    returns (positions: Positions)
    requires Rearranges(order) && Rearranges(rank) && Apart(linked) && forall i :: 0 <= i < |linked| ==> linked[i] != []
    ensures positions.Keys == AllIds(linked)
    ensures forall i :: 0 <= i < |linked| ==> InCell(positions, linked[i], i, selectedId)
  {
    positions := map[];
    for i := 0 to |linked|
      invariant positions.Keys == AllIds(linked[..i])
      invariant forall j :: 0 <= j < i ==> InCell(positions, linked[j], j, selectedId)
    {
      ghost var before := positions;
      positions := PlaceComponent(positions, linked[i], order, rank, selectedId, i);
      forall j | 0 <= j < i ensures InCell(positions, linked[j], j, selectedId) {
        assert Ids(linked[j]) !! Ids(linked[i]);
        InCellStays(before, positions, linked[j], j, selectedId);
      }
      AllIdsTake(linked, i);
    }
    assert linked[..|linked|] == linked;
  }

  /** Each linked component in its own cell, the nodes of the others on the shelf. */
  ghost predicate Shelved(positions: Positions, components: seq<seq<Node>>, linked: seq<seq<Node>>, selectedId: string) {
    && (forall i :: 0 <= i < |linked| ==> InCell(positions, linked[i], i, selectedId))
    && (forall c, v :: c in components && c !in linked && v in Ids(c) ==> v in positions && positions[v].Shelf?)
  }

  lemma LinkedAre(components: seq<seq<Node>>, linked: seq<seq<Node>>, degree: map<string, nat>)
    requires Apart(components) && multiset(linked) == multiset(Filter((c: seq<Node>) => Linked(c, degree), components))
    ensures Apart(linked)
    ensures forall c :: c in linked <==> c in components && Linked(c, degree)
    ensures forall i :: 0 <= i < |linked| ==> linked[i] != []
  {
    var p := (c: seq<Node>) => Linked(c, degree);
    SameMembers(linked, Filter(p, components));
    forall c | c in linked ensures Ids(c) != {} && multiset(linked)[c] <= multiset(components)[c] {
      FilterCounts(p, components, c);
      var n :| n in c;
      assert n.nodeId in Ids(c);
    }
    SomeApart(components, linked);
    forall i | 0 <= i < |linked| ensures linked[i] != [] {
      assert linked[i] in linked && Linked(linked[i], degree);
    }
  }

  lemma ShelfApart(components: seq<seq<Node>>, linked: seq<seq<Node>>, isolated: seq<seq<Node>>)
    requires Apart(components)
    requires forall c :: c in linked ==> c in components
    requires forall c :: c in isolated <==> c in components && c !in linked
    ensures forall i :: 0 <= i < |linked| ==> Ids(linked[i]) !! AllIds(isolated)
  {
    forall i, v | 0 <= i < |linked| && v in Ids(linked[i]) ensures v !in AllIds(isolated) {
      assert linked[i] in linked;
      if v in AllIds(isolated) {
        var c :| c in isolated && v in Ids(c);
        TwoApart(components, linked[i], c);
      }
    }
  }

  method ComponentPositions(components: seq<seq<Node>>, order: seq<Node> -> seq<Node>, rank: seq<Node> -> seq<Node>,
                            componentOrder: seq<seq<Node>> -> seq<seq<Node>>, selectedId: string, degree: map<string, nat>)
    returns (positions: Positions, ghost linked: seq<seq<Node>>)
    requires Rearranges(order) && Rearranges(rank) && Rearranges(componentOrder) && Apart(components)
    ensures positions.Keys == AllIds(components)
    ensures forall c :: c in linked <==> c in components && Linked(c, degree)
    ensures Apart(linked) && Shelved(positions, components, linked, selectedId)
  {
    var ordered := componentOrder(Filter((c: seq<Node>) => Linked(c, degree), components));
    var isolated := Filter((c: seq<Node>) => !Linked(c, degree), components);
    linked := ordered;
    LinkedAre(components, linked, degree);
    ShelfApart(components, linked, isolated);
    positions := PlaceComponents(ordered, order, rank, selectedId);
    positions := PlaceShelf(positions, ordered, isolated, order, selectedId);
    LinkedOrIsolated(components, linked, isolated, degree);
  }

  method PlaceShelf(before: Positions, ghost linked: seq<seq<Node>>, isolated: seq<seq<Node>>, order: seq<Node> -> seq<Node>, ghost selectedId: string)
    returns (positions: Positions)
    requires Rearranges(order)
    requires forall i :: 0 <= i < |linked| ==> Ids(linked[i]) !! AllIds(isolated) && InCell(before, linked[i], i, selectedId)
    ensures positions.Keys == before.Keys + AllIds(isolated)
    ensures forall i :: 0 <= i < |linked| ==> InCell(positions, linked[i], i, selectedId)
    ensures forall v :: v in AllIds(isolated) ==> positions[v].Shelf?
  {
    positions := PlaceEach(before, Flatten(isolated), order, (i: nat) => Shelf(i));
    forall i | 0 <= i < |linked| ensures InCell(positions, linked[i], i, selectedId) {
      InCellStays(before, positions, linked[i], i, selectedId);
    }
  }

  lemma LinkedOrIsolated(components: seq<seq<Node>>, linked: seq<seq<Node>>, isolated: seq<seq<Node>>,
                         degree: map<string, nat>)
    requires forall c :: c in linked <==> c in components && Linked(c, degree)
    requires forall c :: c in isolated <==> c in components && !Linked(c, degree)
    ensures AllIds(linked) + AllIds(isolated) == AllIds(components)
  {
    forall c | c in components ensures c in linked || c in isolated {}
  }

  method ApplyPins(before: Positions, nodes: seq<Node>, pins: map<string, (real, real)>) returns (positions: Positions)
    requires before.Keys == Ids(nodes)
    ensures positions.Keys == Ids(nodes)
    ensures forall v :: v in positions ==> positions[v] == if v in pins then Pinned(pins[v].0, pins[v].1) else before[v]
  {
    positions := before;
    for i := 0 to |nodes|
      invariant positions.Keys == Ids(nodes)
      invariant forall v :: v in positions && v !in pins ==> positions[v] == before[v]
      invariant forall v :: v in positions && v in pins ==>
        positions[v] == before[v] || positions[v] == Pinned(pins[v].0, pins[v].1)
      invariant forall k :: 0 <= k < i && nodes[k].nodeId in pins ==>
        positions[nodes[k].nodeId] == Pinned(pins[nodes[k].nodeId].0, pins[nodes[k].nodeId].1)
    {
      var id := nodes[i].nodeId;
      assert nodes[i] in nodes;
      if id in pins {
        positions := positions[id := Pinned(pins[id].0, pins[id].1)];
      }
    }
    forall v | v in positions && v in pins ensures positions[v] == Pinned(pins[v].0, pins[v].1) {
      var n :| n in nodes && n.nodeId == v;
      var k :| 0 <= k < |nodes| && nodes[k] == n;
    }
  }

  /** Some visible edge ends in the component. */
  ghost predicate HasEdge(component: seq<Node>, ids: set<string>, edges: seq<Edge>) {
    exists u, v :: u in Ids(component) && VisibleLink(edges, ids, u, v)
  }

  lemma LinkedIffEdge(component: seq<Node>, ids: set<string>, edges: seq<Edge>, degree: map<string, nat>, adjacency: Lookup)
    requires GraphMaps(ids, edges, degree, adjacency) && Ids(component) <= ids
    ensures Linked(component, degree) <==> HasEdge(component, ids, edges)
  {
    if Linked(component, degree) {
      var n :| n in component && n.nodeId in degree && degree[n.nodeId] > 0;
      var v := adjacency[n.nodeId][0];
      assert n.nodeId in Ids(component) && v in adjacency[n.nodeId];
      assert VisibleLink(edges, ids, n.nodeId, v);
    }
    if HasEdge(component, ids, edges) {
      var u, v :| u in Ids(component) && VisibleLink(edges, ids, u, v);
      var n :| n in component && n.nodeId == u;
      assert v in adjacency[u];
    }
  }

  ghost function WithEdges(components: seq<seq<Node>>, ids: set<string>, edges: seq<Edge>): set<int> {
    set i | 0 <= i < |components| && HasEdge(components[i], ids, edges)
  }

  lemma LinkedCount(components: seq<seq<Node>>, ids: set<string>, edges: seq<Edge>, degree: map<string, nat>, adjacency: Lookup)
    requires GraphMaps(ids, edges, degree, adjacency) && forall i :: 0 <= i < |components| ==> Ids(components[i]) <= ids
    ensures |Filter((c: seq<Node>) => Linked(c, degree), components)| == |WithEdges(components, ids, edges)|
  {
    var p := (c: seq<Node>) => Linked(c, degree);
    FilterCount(p, components);
    forall i | 0 <= i < |components| ensures p(components[i]) <==> HasEdge(components[i], ids, edges) {
      LinkedIffEdge(components[i], ids, edges, degree, adjacency);
    }
    assert Where(p, components) == WithEdges(components, ids, edges);
  }

  /** More nodes or more components with edges than the rings can show. */
  ghost predicate Crowded(nodes: seq<Node>, edges: seq<Edge>, components: seq<seq<Node>>) {
    |nodes| > 45 || |WithEdges(components, Ids(nodes), edges)| > 4
  }

  datatype Layout =
    | Rings(center: string, distances: map<string, nat>)
    | Cells(linked: seq<seq<Node>>)

  /** Where the layout puts the nodes before pins: around a centre, or component by component. */
  ghost predicate LaidOut(positions: Positions, nodes: seq<Node>, edges: seq<Edge>, layout: Layout, components: seq<seq<Node>>,
                          degree: map<string, nat>, adjacency: Lookup, selectedId: string)
  {
    match layout
    case Rings(center, distances) =>
      && Radial(positions, adjacency, center, distances) && Banded(positions, nodes, center, distances, degree)
      && (selectedId in Ids(nodes) ==> center == selectedId)
    case Cells(linked) =>
      && Apart(linked) && (forall c :: c in linked <==> c in components && HasEdge(c, Ids(nodes), edges))
      && Shelved(positions, components, linked, selectedId)
  }

  /** The nodes are laid out in cells exactly when there are too many of them or of the components with edges. Either way every
      visible node is placed and nothing else, and a pinned node is at its pin. */
  method RelationshipLayoutPositions(nodes: seq<Node>, edges: seq<Edge>, order: seq<Node> -> seq<Node>,
                                     rank: seq<Node> -> seq<Node>, componentOrder: seq<seq<Node>> -> seq<seq<Node>>,
                                     selectedId: string, pins: map<string, (real, real)>)
    returns (positions: Positions, ghost laid: Positions, ghost layout: Layout, ghost components: seq<seq<Node>>,
             ghost degree: map<string, nat>, ghost adjacency: Lookup)
    requires Rearranges(order) && Rearranges(rank) && Rearranges(componentOrder)
    ensures positions.Keys == laid.Keys == Ids(nodes)
    ensures forall v :: v in positions ==> positions[v] == if v in pins then Pinned(pins[v].0, pins[v].1) else laid[v]
    ensures GraphMaps(Ids(nodes), edges, degree, adjacency) && Split(adjacency, components, Ids(nodes))
    ensures nodes != [] ==> LaidOut(laid, nodes, edges, layout, components, degree, adjacency, selectedId)
    ensures nodes != [] ==> (layout.Cells? <==> Crowded(nodes, edges, components))
  {
    if nodes == [] {
      return map[], map[], Cells([]), [], map[], map[];
    }
    var degrees, lookup := BuildGraphMaps(nodes, edges);
    GraphMapsMutual(Ids(nodes), edges, degrees, lookup);
    var found := ConnectedComponents(nodes, order(nodes), lookup);
    degree, adjacency, components := degrees, lookup, found;
    var before;
    var multi := Filter((c: seq<Node>) => Linked(c, degrees), found);
    ComponentsInside(lookup, found, Ids(nodes));
    LinkedCount(found, Ids(nodes), edges, degrees, lookup);
    if |nodes| > 45 || |multi| > 4 {
      before, layout := CellLayout(nodes, edges, found, order, rank, componentOrder, selectedId, degrees, lookup);
    } else {
      ghost var center, distances;
      before, center, distances := RadialPositions(nodes, order, rank, selectedId, degrees, lookup);
      layout := Rings(center, distances);
    }
    laid := before;
    positions := ApplyPins(before, nodes, pins);
  }

  method CellLayout(nodes: seq<Node>, ghost edges: seq<Edge>, components: seq<seq<Node>>, order: seq<Node> -> seq<Node>,
                    rank: seq<Node> -> seq<Node>, componentOrder: seq<seq<Node>> -> seq<seq<Node>>, selectedId: string,
                    degree: map<string, nat>, ghost adjacency: Lookup)
    returns (positions: Positions, ghost layout: Layout)
    requires Rearranges(order) && Rearranges(rank) && Rearranges(componentOrder)
    requires GraphMaps(Ids(nodes), edges, degree, adjacency) && Split(adjacency, components, Ids(nodes))
    ensures positions.Keys == Ids(nodes)
    ensures layout.Cells? && LaidOut(positions, nodes, edges, layout, components, degree, adjacency, selectedId)
  {
    ghost var linked;
    positions, linked := ComponentPositions(components, order, rank, componentOrder, selectedId, degree);
    SplitCovers(adjacency, components, Ids(nodes));
    ComponentsInside(adjacency, components, Ids(nodes));
    forall c | c in components ensures Linked(c, degree) <==> HasEdge(c, Ids(nodes), edges) {
      LinkedIffEdge(c, Ids(nodes), edges, degree, adjacency);
    }
    layout := Cells(linked);
  }

  lemma ComponentsInside(adjacency: Lookup, components: seq<seq<Node>>, covered: set<string>)
    requires Split(adjacency, components, covered)
    ensures Apart(components) && forall c :: c in components ==> Ids(c) <= covered
  {
  }

  lemma SplitCovers(adjacency: Lookup, components: seq<seq<Node>>, covered: set<string>)
    requires Split(adjacency, components, covered)
    ensures AllIds(components) == covered
  {
    forall v | v in covered ensures v in AllIds(components) {
      var i :| 0 <= i < |components| && v in Ids(components[i]);
      assert components[i] in components;
    }
  }
}
