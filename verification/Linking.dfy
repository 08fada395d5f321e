/** Node ids, node extraction and deterministic relation linking. */
module Linking {
  import opened Lists
  import opened Text

  datatype NodeType = Requirement | ArchitectureBlock | DesignSpec | Verification | Issue | DecisionNode | Component | Risk

  datatype Node = Node(nodeId: string, nodeType: NodeType, projectKey: string)

  /** `relations` is the relation override in the metadata, empty when it is not a mapping. `nodeType` is the explicit or
      inferred type. */
  datatype Raw = Raw(externalId: string, projectKey: string, nodeType: NodeType, links: seq<string>, relations: map<string, string>)

  /** The edge id is an injective hash of these three, so the triple stands for the id. */
  datatype Edge = Edge(source: string, relation: string, target: string)

  const RELATIONS := {"satisfies", "verifies", "derives", "implements", "affects", "blocks", "conflicts_with", "supersedes", "decides"}

  // ---- ids ----

  function Replace(s: string, from: char, to: char): (r: string)
    ensures |r| == |s|
    ensures forall i :: 0 <= i < |s| ==> r[i] == if s[i] == from then to else s[i]
  {
    seq(|s|, i requires 0 <= i < |s| => if s[i] == from then to else s[i])
  }

  function Prefix(projectKey: string): string { "node_" + projectKey + "_" }

  function NodeId(projectKey: string, externalId: string): string {
    Prefix(projectKey) + Replace(externalId, '-', '_')
  }

  function ExternalId(node: Node): string {
    if Prefix(node.projectKey) <= node.nodeId then Replace(node.nodeId[|Prefix(node.projectKey)|..], '_', '-')
    else node.nodeId
  }

  /** Reading an external id back from a node id gives the original exactly when it has no underscore. */
  lemma IdRoundTrip(projectKey: string, externalId: string, nodeType: NodeType)
    ensures ExternalId(Node(NodeId(projectKey, externalId), nodeType, projectKey)) == externalId <==> '_' !in externalId
  {
    var id := NodeId(projectKey, externalId);
    assert id[|Prefix(projectKey)|..] == Replace(externalId, '-', '_');
    var back := Replace(Replace(externalId, '-', '_'), '_', '-');
    if '_' in externalId {
      var i :| 0 <= i < |externalId| && externalId[i] == '_';
      assert back[i] == '-';
    } else {
      assert forall i :: 0 <= i < |externalId| ==> externalId[i] in externalId;
      assert back == externalId;
    }
  }

  lemma NodeIdInjective(projectKey: string, x: string, y: string)
    requires '_' !in x && '_' !in y && NodeId(projectKey, x) == NodeId(projectKey, y)
    ensures x == y
  {
    IdRoundTrip(projectKey, x, Requirement);
    IdRoundTrip(projectKey, y, Requirement);
  }

  // ---- linking ----

  function ExtractNode(raw: Raw): Node {
    Node(NodeId(raw.projectKey, raw.externalId), raw.nodeType, raw.projectKey)
  }

  /** No later node has its external id. */
  ghost predicate LastOf(nodes: seq<Node>, n: Node) {
    exists i :: 0 <= i < |nodes| && nodes[i] == n && forall j :: i < j < |nodes| ==> ExternalId(nodes[j]) != ExternalId(n)
  }

  lemma LastsKept(nodes: seq<Node>)
    requires nodes != []
    ensures var init, last := nodes[..|nodes| - 1], nodes[|nodes| - 1];
            LastOf(nodes, last) && forall n :: LastOf(init, n) && ExternalId(n) != ExternalId(last) ==> LastOf(nodes, n)
  {
    var init, last := nodes[..|nodes| - 1], nodes[|nodes| - 1];
    assert nodes[|nodes| - 1] == last;
    forall n | LastOf(init, n) && ExternalId(n) != ExternalId(last) ensures LastOf(nodes, n) {
      var i :| 0 <= i < |init| && init[i] == n && forall j :: i < j < |init| ==> ExternalId(init[j]) != ExternalId(n);
      assert nodes[i] == n;
      assert forall j :: i < j < |nodes| ==> nodes[j] == if j == |nodes| - 1 then last else init[j];
    }
  }

  /** `{_external_id_from_node(node): node for node in nodes}`: the last one wins. */
  function NodeByExternal(nodes: seq<Node>): (m: map<string, Node>)
    ensures forall x :: x in m ==> m[x] in nodes && ExternalId(m[x]) == x && LastOf(nodes, m[x])
    ensures forall n :: n in nodes ==> ExternalId(n) in m
  {
    if nodes == [] then map[]
    else
      var last := nodes[|nodes| - 1];
      assert forall n :: n in nodes <==> n in nodes[..|nodes| - 1] || n == last;
      LastsKept(nodes);
      NodeByExternal(nodes[..|nodes| - 1])[ExternalId(last) := last]
  }

  function DefaultRelation(source: NodeType, target: NodeType): string {
    match source
    case Verification => "verifies"
    case DesignSpec => if target != Requirement then "implements" else "satisfies"
    case ArchitectureBlock => if target != Requirement then "implements" else "satisfies"
    case Issue => "affects"
    case Risk => "affects"
    case _ => "derives"
  }

  /** What relation a link stands for. The artifact's own word counts if it is one of the relations; a word that is none gives no
      edge. Without one, a verification verifies, a design or an architecture block satisfies a requirement and implements anything
      else, an issue or a risk affects, and the others derive. */
  ghost predicate Gives(raw: Raw, target: string, source: NodeType, dest: NodeType, relation: string) {
    if target in raw.relations then relation == raw.relations[target] && relation in RELATIONS
    else
      || (source == Verification && relation == "verifies")
      || ((source == DesignSpec || source == ArchitectureBlock) && dest == Requirement && relation == "satisfies")
      || ((source == DesignSpec || source == ArchitectureBlock) && dest != Requirement && relation == "implements")
      || ((source == Issue || source == Risk) && relation == "affects")
      || (source !in {Verification, DesignSpec, ArchitectureBlock, Issue, Risk} && relation == "derives")
  }

  lemma LinkGives(raw: Raw, target: string, source: NodeType, dest: NodeType, relation: string)
    ensures Gives(raw, target, source, dest, relation) <==> LinkRelation(raw, target, source, dest) == relation && relation in RELATIONS
  {
  }

  /** The relation of one link: the artifact's own word for it, or the default for the two node types. */
  function LinkRelation(raw: Raw, target: string, source: NodeType, targetType: NodeType): string {
    if target in raw.relations then raw.relations[target] else DefaultRelation(source, targetType)
  }

  ghost predicate LinkYields(raw: Raw, target: string, known: map<string, Node>, evidence: set<string>, e: Edge) {
    && raw.externalId in known && target in known && raw.externalId in evidence
    && var source, dest := known[raw.externalId], known[target];
       e.source == source.nodeId && e.target == dest.nodeId && Gives(raw, target, source.nodeType, dest.nodeType, e.relation)
  }

  ghost predicate RawYields(raw: Raw, known: map<string, Node>, evidence: set<string>, e: Edge) {
    exists target :: target in raw.links && LinkYields(raw, target, known, evidence, e)
  }

  ghost predicate Linked(raws: seq<Raw>, known: map<string, Node>, evidence: set<string>, e: Edge) {
    exists raw :: raw in raws && RawYields(raw, known, evidence, e)
  }

  predicate NoRepeats(edges: seq<Edge>) {
    forall i, j :: 0 <= i < j < |edges| ==> edges[i] != edges[j]
  }

  /** One artifact: its links in order, into the insertion-ordered dictionary of edges. */
  method LinkOne(raw: Raw, known: map<string, Node>, evidence: set<string>, before: seq<Edge>) returns (edges: seq<Edge>)
    requires NoRepeats(before)
    ensures NoRepeats(edges) && before <= edges
    ensures forall e :: e in edges <==> e in before || RawYields(raw, known, evidence, e)
  {
    edges := before;
    if raw.externalId !in known {
      return;
    }
    var source := known[raw.externalId];
    for i := 0 to |raw.links|
      invariant NoRepeats(edges) && before <= edges
      invariant forall e :: e in edges <==>
        e in before || exists k :: 0 <= k < i && LinkYields(raw, raw.links[k], known, evidence, e)
    {
      var target := raw.links[i];
      if target !in known {
        continue;
      }
      var relation := LinkRelation(raw, target, source.nodeType, known[target].nodeType);
      forall r { LinkGives(raw, target, source.nodeType, known[target].nodeType, r); }
      if relation !in RELATIONS || raw.externalId !in evidence {
        continue;
      }
      var edge := Edge(source.nodeId, relation, known[target].nodeId);
      assert LinkYields(raw, raw.links[i], known, evidence, edge);
      if edge !in edges {
        edges := edges + [edge];
      }
    }
    forall e | RawYields(raw, known, evidence, e) ensures e in edges {
      var target :| target in raw.links && LinkYields(raw, target, known, evidence, e);
      var k :| 0 <= k < |raw.links| && raw.links[k] == target;
      assert LinkYields(raw, raw.links[k], known, evidence, e);
    }
  }

  ghost predicate LinkedBefore(raws: seq<Raw>, n: nat, known: map<string, Node>, evidence: set<string>, e: Edge) {
    exists k :: 0 <= k < n && k < |raws| && RawYields(raws[k], known, evidence, e)
  }

  lemma LinkedBeforeOne(raws: seq<Raw>, n: nat, known: map<string, Node>, evidence: set<string>, e: Edge)
    requires n < |raws|
    ensures LinkedBefore(raws, n + 1, known, evidence, e) <==> LinkedBefore(raws, n, known, evidence, e) || RawYields(raws[n], known, evidence, e)
  {
  }

  lemma LinkedBeforeAll(raws: seq<Raw>, known: map<string, Node>, evidence: set<string>, e: Edge)
    ensures LinkedBefore(raws, |raws|, known, evidence, e) <==> Linked(raws, known, evidence, e)
  {
    if raw :| raw in raws && RawYields(raw, known, evidence, e) {
      var k :| 0 <= k < |raws| && raws[k] == raw;
    }
  }

  /** The candidate edges are exactly the triples some artifact's link stands for, each once. */
  method LinkEdges(raws: seq<Raw>, nodes: seq<Node>, evidence: set<string>) returns (edges: seq<Edge>)
    ensures NoRepeats(edges)
    ensures forall e :: e in edges <==> Linked(raws, NodeByExternal(nodes), evidence, e)
  {
    var known := NodeByExternal(nodes);
    edges := [];
    for i := 0 to |raws|
      invariant NoRepeats(edges)
      invariant forall e :: e in edges <==> LinkedBefore(raws, i, known, evidence, e)
    {
      forall e ensures LinkedBefore(raws, i + 1, known, evidence, e) <==>
                       LinkedBefore(raws, i, known, evidence, e) || RawYields(raws[i], known, evidence, e) {
        LinkedBeforeOne(raws, i, known, evidence, e);
      }
      edges := LinkOne(raws[i], known, evidence, edges);
    }
    forall e ensures LinkedBefore(raws, |raws|, known, evidence, e) <==> Linked(raws, known, evidence, e) {
      LinkedBeforeAll(raws, known, evidence, e);
    }
  }
}
