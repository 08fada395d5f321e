/** The four gap rules over a candidate graph: index dictionaries and loops against their quantified meaning. */
module Findings {
  import opened Linking
  import opened Text

  datatype Rule = ReqWithoutImplementation | ReqWithoutVerification | DesignWithoutParent | ArchitectureWithoutVerificationPath

  datatype Finding = Finding(rule: Rule, nodeId: string)

  // ---- what the rules mean ----

  ghost predicate Incoming(edges: seq<Edge>, node: string, relations: set<string>) {
    exists e :: e in edges && e.target == node && e.relation in relations
  }

  ghost predicate Outgoing(edges: seq<Edge>, node: string, relations: set<string>) {
    exists e :: e in edges && e.source == node && e.relation in relations
  }

  const TRACES := {"satisfies", "implements", "derives"}

  /** Verified itself, or traced to something that is. */
  ghost predicate VerificationPath(edges: seq<Edge>, node: string) {
    || Incoming(edges, node, {"verifies"})
    || exists e :: e in edges && e.source == node && e.relation in TRACES && Incoming(edges, e.target, {"verifies"})
  }

  ghost predicate Flagged(rule: Rule, node: Node, edges: seq<Edge>) {
    match rule
    case ReqWithoutImplementation => node.nodeType == Requirement && !Incoming(edges, node.nodeId, {"satisfies", "implements"})
    case ReqWithoutVerification => node.nodeType == Requirement && !Incoming(edges, node.nodeId, {"verifies"})
    case DesignWithoutParent => node.nodeType == DesignSpec && !Outgoing(edges, node.nodeId, TRACES)
    case ArchitectureWithoutVerificationPath => node.nodeType == ArchitectureBlock && !VerificationPath(edges, node.nodeId)
  }

  // ---- indexed evaluation ----

  type Index = map<string, seq<Edge>>

  /** `index[key]` on a `defaultdict(list)` */
  function At(index: Index, key: string): seq<Edge> {
    if key in index then index[key] else []
  }

  /** `index[key].append(edge)` */
  function Append(index: Index, key: string, edge: Edge): (r: Index)
    ensures forall v, e :: e in At(r, v) <==> e in At(index, v) || (v == key && e == edge)
  {
    index[key := At(index, key) + [edge]]
  }

  ghost predicate IndexesTargets(index: Index, edges: seq<Edge>) {
    forall v, e :: e in At(index, v) <==> e in edges && e.target == v
  }

  ghost predicate IndexesSources(index: Index, edges: seq<Edge>) {
    forall v, e :: e in At(index, v) <==> e in edges && e.source == v
  }

  method BuildIndexes(edges: seq<Edge>) returns (incoming: Index, outgoing: Index)
    ensures IndexesTargets(incoming, edges) && IndexesSources(outgoing, edges)
  {
    incoming, outgoing := map[], map[];
    for i := 0 to |edges|
      invariant IndexesTargets(incoming, edges[..i]) && IndexesSources(outgoing, edges[..i])
    {
      var edge := edges[i];
      assert edges[..i + 1] == edges[..i] + [edge];
      incoming := Append(incoming, edge.target, edge);
      outgoing := Append(outgoing, edge.source, edge);
    }
    assert edges[..|edges|] == edges;
  }

  /** `any(edge.relation in relations for edge in edges)` */
  predicate AnyRelation(edges: seq<Edge>, relations: set<string>) {
    exists e :: e in edges && e.relation in relations
  }

  lemma IndexedIncoming(index: Index, edges: seq<Edge>, node: string, relations: set<string>)
    requires IndexesTargets(index, edges)
    ensures AnyRelation(At(index, node), relations) <==> Incoming(edges, node, relations)
  {
    if e :| e in edges && e.target == node && e.relation in relations {
      assert e in At(index, node);
    }
  }

  lemma IndexedOutgoing(index: Index, edges: seq<Edge>, node: string, relations: set<string>)
    requires IndexesSources(index, edges)
    ensures AnyRelation(At(index, node), relations) <==> Outgoing(edges, node, relations)
  {
    if e :| e in edges && e.source == node && e.relation in relations {
      assert e in At(index, node);
    }
  }

  method NodeFindings(node: Node, edges: seq<Edge>, incoming: Index, outgoing: Index) returns (findings: seq<Finding>)
    requires IndexesTargets(incoming, edges) && IndexesSources(outgoing, edges)
    ensures forall f :: f in findings <==>
      f.nodeId == node.nodeId && f.rule != ArchitectureWithoutVerificationPath && Flagged(f.rule, node, edges)
  {
    findings := [];
    IndexedIncoming(incoming, edges, node.nodeId, {"satisfies", "implements"});
    IndexedIncoming(incoming, edges, node.nodeId, {"verifies"});
    IndexedOutgoing(outgoing, edges, node.nodeId, TRACES);
    if node.nodeType == Requirement {
      if !AnyRelation(At(incoming, node.nodeId), {"satisfies", "implements"}) {
        findings := findings + [Finding(ReqWithoutImplementation, node.nodeId)];
      }
      if !AnyRelation(At(incoming, node.nodeId), {"verifies"}) {
        findings := findings + [Finding(ReqWithoutVerification, node.nodeId)];
      }
    }
    if node.nodeType == DesignSpec {
      if !AnyRelation(At(outgoing, node.nodeId), TRACES) {
        findings := findings + [Finding(DesignWithoutParent, node.nodeId)];
      }
    }
  }

  /** `trace_edges` and `indirect_verified_edges` of one architecture block */
  method HasVerificationPath(node: string, edges: seq<Edge>, incoming: Index, outgoing: Index) returns (found: bool)
    requires IndexesTargets(incoming, edges) && IndexesSources(outgoing, edges)
    ensures found <==> VerificationPath(edges, node)
  {
    IndexedIncoming(incoming, edges, node, {"verifies"});
    if AnyRelation(At(incoming, node), {"verifies"}) {
      return true;
    }
    var leaving := At(outgoing, node);
    for i := 0 to |leaving|
      invariant forall k :: 0 <= k < i && leaving[k].relation in TRACES ==> !Incoming(edges, leaving[k].target, {"verifies"})
    {
      IndexedIncoming(incoming, edges, leaving[i].target, {"verifies"});
      if leaving[i].relation in TRACES && AnyRelation(At(incoming, leaving[i].target), {"verifies"}) {
        assert leaving[i] in leaving;
        return true;
      }
    }
    found := false;
    forall e | e in edges && e.source == node && e.relation in TRACES ensures !Incoming(edges, e.target, {"verifies"}) {
      assert e in leaving;
    }
  }

  /** A gap is reported exactly for the nodes that have it. */
  method GapFindings(nodes: seq<Node>, edges: seq<Edge>) returns (findings: seq<Finding>)
    ensures forall f :: f in findings <==> exists n :: n in nodes && n.nodeId == f.nodeId && Flagged(f.rule, n, edges)
  {
    var incoming, outgoing := BuildIndexes(edges);
    findings := [];
    for i := 0 to |nodes|
      invariant forall f :: f in findings <==>
        f.rule != ArchitectureWithoutVerificationPath &&
        exists k :: 0 <= k < i && nodes[k].nodeId == f.nodeId && Flagged(f.rule, nodes[k], edges)
    {
      var more := NodeFindings(nodes[i], edges, incoming, outgoing);
      findings := findings + more;
    }
    for i := 0 to |nodes|
      invariant forall f :: f in findings <==>
        exists k :: 0 <= k < (if f.rule == ArchitectureWithoutVerificationPath then i else |nodes|)
          && nodes[k].nodeId == f.nodeId && Flagged(f.rule, nodes[k], edges)
    {
      if nodes[i].nodeType == ArchitectureBlock {
        var found := HasVerificationPath(nodes[i].nodeId, edges, incoming, outgoing);
        if !found {
          findings := findings + [Finding(ArchitectureWithoutVerificationPath, nodes[i].nodeId)];
        }
      }
    }
    forall f ensures f in findings <==> exists n :: n in nodes && n.nodeId == f.nodeId && Flagged(f.rule, n, edges) {
      if n :| n in nodes && n.nodeId == f.nodeId && Flagged(f.rule, n, edges) {
        var k :| 0 <= k < |nodes| && nodes[k] == n;
      }
    }
  }

  /** More edges, fewer gaps. */
  lemma GapsShrink(rule: Rule, node: Node, edges: seq<Edge>, more: seq<Edge>)
    requires forall e :: e in edges ==> e in more
    ensures Flagged(rule, node, more) ==> Flagged(rule, node, edges)
  {
    if rule == ArchitectureWithoutVerificationPath && VerificationPath(edges, node.nodeId) && !Incoming(edges, node.nodeId, {"verifies"}) {
      var e :| e in edges && e.source == node.nodeId && e.relation in TRACES && Incoming(edges, e.target, {"verifies"});
      assert Incoming(more, e.target, {"verifies"});
    }
  }

  // ---- from artifacts to findings ----

  /** One fetch of one project: distinct external ids without underscores. */
  ghost predicate CleanFetch(raws: seq<Raw>, projectKey: string) {
    && (forall r :: r in raws ==> r.projectKey == projectKey && '_' !in r.externalId)
    && forall r, q :: r in raws && q in raws && r.externalId == q.externalId ==> r == q
  }

  ghost predicate Extracted(nodes: seq<Node>, raws: seq<Raw>) {
    |nodes| == |raws| && forall i :: 0 <= i < |raws| ==> nodes[i] == ExtractNode(raws[i])
  }

  lemma KnownArtifact(raws: seq<Raw>, projectKey: string, nodes: seq<Node>, raw: Raw)
    requires CleanFetch(raws, projectKey) && Extracted(nodes, raws) && raw in raws
    ensures raw.externalId in NodeByExternal(nodes) && NodeByExternal(nodes)[raw.externalId] == ExtractNode(raw)
  {
    var known := NodeByExternal(nodes);
    var i :| 0 <= i < |raws| && raws[i] == raw;
    assert nodes[i] in nodes;
    IdRoundTrip(projectKey, raw.externalId, raw.nodeType);
    var node := known[raw.externalId];
    var j :| 0 <= j < |nodes| && nodes[j] == node;
    IdRoundTrip(projectKey, raws[j].externalId, raws[j].nodeType);
    assert raws[j] in raws;
  }

  lemma KnownIsArtifact(raws: seq<Raw>, projectKey: string, nodes: seq<Node>, x: string) returns (raw: Raw)
    requires CleanFetch(raws, projectKey) && Extracted(nodes, raws) && x in NodeByExternal(nodes)
    ensures raw in raws && raw.externalId == x && NodeByExternal(nodes)[x] == ExtractNode(raw)
  {
    var node := NodeByExternal(nodes)[x];
    var j :| 0 <= j < |nodes| && nodes[j] == node;
    raw := raws[j];
    IdRoundTrip(projectKey, raw.externalId, raw.nodeType);
  }

  /** The artifact's link to the other artifact resolves to this relation. */
  ghost predicate Resolves(raw: Raw, to: Raw, relation: string) {
    to.externalId in raw.links && Gives(raw, to.externalId, raw.nodeType, to.nodeType, relation)
  }

  /** Nodes and edges as one analysis of one fetch produces them, with evidence for every artifact. */
  ghost predicate Analysed(raws: seq<Raw>, projectKey: string, nodes: seq<Node>, evidence: set<string>, edges: seq<Edge>) {
    && CleanFetch(raws, projectKey) && Extracted(nodes, raws)
    && (forall r :: r in raws ==> r.externalId in evidence)
    && forall e :: e in edges <==> Linked(raws, NodeByExternal(nodes), evidence, e)
  }

  /** An edge joins two artifacts' nodes exactly when the one's link to the other resolves to its relation. */
  lemma EdgesAreLinks(raws: seq<Raw>, projectKey: string, nodes: seq<Node>, evidence: set<string>, edges: seq<Edge>,
                      source: Raw, to: Raw, relation: string)
    requires Analysed(raws, projectKey, nodes, evidence, edges) && source in raws && to in raws
    ensures Edge(ExtractNode(source).nodeId, relation, ExtractNode(to).nodeId) in edges <==> Resolves(source, to, relation)
  {
    var known := NodeByExternal(nodes);
    var e := Edge(ExtractNode(source).nodeId, relation, ExtractNode(to).nodeId);
    KnownArtifact(raws, projectKey, nodes, source);
    KnownArtifact(raws, projectKey, nodes, to);
    if Resolves(source, to, relation) {
      assert LinkYields(source, to.externalId, known, evidence, e);
      assert RawYields(source, known, evidence, e);
    }
    if e in edges {
      var raw :| raw in raws && RawYields(raw, known, evidence, e);
      var target :| target in raw.links && LinkYields(raw, target, known, evidence, e);
      KnownArtifact(raws, projectKey, nodes, raw);
      var dest := KnownIsArtifact(raws, projectKey, nodes, target);
      NodeIdInjective(projectKey, raw.externalId, source.externalId);
      NodeIdInjective(projectKey, dest.externalId, to.externalId);
    }
  }

  lemma EdgeEnds(raws: seq<Raw>, projectKey: string, nodes: seq<Node>, evidence: set<string>, edges: seq<Edge>, e: Edge)
    returns (source: Raw, to: Raw)
    requires Analysed(raws, projectKey, nodes, evidence, edges) && e in edges
    ensures source in raws && to in raws
    ensures e.source == ExtractNode(source).nodeId && e.target == ExtractNode(to).nodeId
    ensures Resolves(source, to, e.relation)
  {
    var known := NodeByExternal(nodes);
    source :| source in raws && RawYields(source, known, evidence, e);
    var target :| target in source.links && LinkYields(source, target, known, evidence, e);
    KnownArtifact(raws, projectKey, nodes, source);
    to := KnownIsArtifact(raws, projectKey, nodes, target);
  }

  lemma SameNodeSameArtifact(raws: seq<Raw>, projectKey: string, x: Raw, y: Raw)
    requires CleanFetch(raws, projectKey) && x in raws && y in raws && ExtractNode(x).nodeId == ExtractNode(y).nodeId
    ensures x == y
  {
    NodeIdInjective(projectKey, x.externalId, y.externalId);
  }

  /** A link says so itself, or comes from a verification and says nothing. */
  predicate Verifies(r: Raw, to: Raw) {
    to.externalId in r.links && if to.externalId in r.relations then r.relations[to.externalId] == "verifies" else r.nodeType == Verification
  }

  predicate VerifiedByLink(raws: seq<Raw>, to: Raw) {
    exists r :: r in raws && Verifies(r, to)
  }

  /** A link says one of these, or comes from a design or an architecture block and says nothing. */
  predicate Implements(r: Raw, requirement: Raw) {
    && requirement.externalId in r.links
    && if requirement.externalId in r.relations then r.relations[requirement.externalId] in {"satisfies", "implements"}
       else r.nodeType == DesignSpec || r.nodeType == ArchitectureBlock
  }

  predicate ImplementedByLink(raws: seq<Raw>, requirement: Raw) {
    exists r :: r in raws && Implements(r, requirement)
  }

  /** The link of a design or an architecture block says one of these, or nothing. */
  predicate TracesTo(block: Raw, t: Raw) {
    t.externalId in block.links && (t.externalId in block.relations ==> block.relations[t.externalId] in {"satisfies", "implements", "derives"})
  }

  lemma VerifiesIff(r: Raw, to: Raw)
    ensures Resolves(r, to, "verifies") <==> Verifies(r, to)
  {
  }

  lemma ImplementsIff(r: Raw, requirement: Raw)
    requires requirement.nodeType == Requirement
    ensures Resolves(r, requirement, "satisfies") || Resolves(r, requirement, "implements") <==> Implements(r, requirement)
  {
  }

  lemma TracesIff(block: Raw, t: Raw)
    requires block.nodeType == DesignSpec || block.nodeType == ArchitectureBlock
    ensures (exists relation :: relation in TRACES && Resolves(block, t, relation)) <==> TracesTo(block, t)
  {
    assert Resolves(block, t, "satisfies") || Resolves(block, t, "implements") || Resolves(block, t, "derives") <==> TracesTo(block, t);
  }

  lemma VerifiedIffLinked(raws: seq<Raw>, projectKey: string, nodes: seq<Node>, evidence: set<string>, edges: seq<Edge>, to: Raw)
    requires Analysed(raws, projectKey, nodes, evidence, edges) && to in raws
    ensures Incoming(edges, ExtractNode(to).nodeId, {"verifies"}) <==> VerifiedByLink(raws, to)
  {
    var node := ExtractNode(to).nodeId;
    if Incoming(edges, node, {"verifies"}) {
      var e :| e in edges && e.target == node && e.relation in {"verifies"};
      var source, dest := EdgeEnds(raws, projectKey, nodes, evidence, edges, e);
      SameNodeSameArtifact(raws, projectKey, dest, to);
      VerifiesIff(source, to);
    }
    if r :| r in raws && Verifies(r, to) {
      VerifiesIff(r, to);
      EdgesAreLinks(raws, projectKey, nodes, evidence, edges, r, to, "verifies");
      assert Edge(ExtractNode(r).nodeId, "verifies", node).target == node;
    }
  }

  /** End to end: a requirement is reported unverified exactly when no artifact links to it with `verifies`, or as a verification
      without a word of its own. */
  lemma UnverifiedIffNoVerifyingLink(raws: seq<Raw>, projectKey: string, nodes: seq<Node>, evidence: set<string>,
                                     edges: seq<Edge>, requirement: Raw)
    requires Analysed(raws, projectKey, nodes, evidence, edges)
    requires requirement in raws && requirement.nodeType == Requirement
    ensures Flagged(ReqWithoutVerification, ExtractNode(requirement), edges) <==> !VerifiedByLink(raws, requirement)
  {
    VerifiedIffLinked(raws, projectKey, nodes, evidence, edges, requirement);
  }

  /** Some artifact the block traces to is verified. */
  predicate TracedToVerified(raws: seq<Raw>, block: Raw) {
    exists t :: t in raws && VerifiedByLink(raws, t) && TracesTo(block, t)
  }

  lemma TraceFromLinks(raws: seq<Raw>, projectKey: string, nodes: seq<Node>, evidence: set<string>, edges: seq<Edge>, block: Raw)
    requires Analysed(raws, projectKey, nodes, evidence, edges) && block in raws && TracedToVerified(raws, block)
    requires block.nodeType == ArchitectureBlock
    ensures VerificationPath(edges, ExtractNode(block).nodeId)
  {
    var t :| t in raws && VerifiedByLink(raws, t) && TracesTo(block, t);
    TracesIff(block, t);
    var relation :| relation in TRACES && Resolves(block, t, relation);
    EdgesAreLinks(raws, projectKey, nodes, evidence, edges, block, t, relation);
    VerifiedIffLinked(raws, projectKey, nodes, evidence, edges, t);
    var e := Edge(ExtractNode(block).nodeId, relation, ExtractNode(t).nodeId);
    assert e in edges && e.source == ExtractNode(block).nodeId && e.relation in TRACES;
  }

  lemma TraceIntoLinks(raws: seq<Raw>, projectKey: string, nodes: seq<Node>, evidence: set<string>, edges: seq<Edge>,
                       block: Raw, e: Edge)
    requires Analysed(raws, projectKey, nodes, evidence, edges) && block in raws && block.nodeType == ArchitectureBlock
    requires e in edges && e.source == ExtractNode(block).nodeId && e.relation in TRACES && Incoming(edges, e.target, {"verifies"})
    ensures TracedToVerified(raws, block)
  {
    var source, to := EdgeEnds(raws, projectKey, nodes, evidence, edges, e);
    SameNodeSameArtifact(raws, projectKey, source, block);
    VerifiedIffLinked(raws, projectKey, nodes, evidence, edges, to);
    TracesIff(block, to);
  }

  /** End to end: a requirement is reported unimplemented exactly when no artifact links to it with `satisfies` or `implements`, or as
      a design or an architecture block without a word of its own. */
  lemma UnimplementedIffNoLink(raws: seq<Raw>, projectKey: string, nodes: seq<Node>, evidence: set<string>, edges: seq<Edge>, requirement: Raw)
    requires Analysed(raws, projectKey, nodes, evidence, edges)
    requires requirement in raws && requirement.nodeType == Requirement
    ensures Flagged(ReqWithoutImplementation, ExtractNode(requirement), edges) <==> !ImplementedByLink(raws, requirement)
  {
    if Incoming(edges, ExtractNode(requirement).nodeId, {"satisfies", "implements"}) {
      var source, relation := IncomingIsLink(raws, projectKey, nodes, evidence, edges, requirement, {"satisfies", "implements"});
      ResolvedImplements(source, requirement, relation);
    }
    if r :| r in raws && Implements(r, requirement) {
      ImplementingLinkIsEdge(raws, projectKey, nodes, evidence, edges, r, requirement);
    }
  }

  lemma ResolvedImplements(r: Raw, requirement: Raw, relation: string)
    requires requirement.nodeType == Requirement && Resolves(r, requirement, relation) && relation in {"satisfies", "implements"}
    ensures Implements(r, requirement)
  {
    ImplementsIff(r, requirement);
  }

  lemma EdgeToArtifact(raws: seq<Raw>, projectKey: string, nodes: seq<Node>, evidence: set<string>, edges: seq<Edge>, to: Raw, e: Edge)
    returns (source: Raw)
    requires Analysed(raws, projectKey, nodes, evidence, edges) && to in raws && e in edges && e.target == ExtractNode(to).nodeId
    ensures source in raws && Resolves(source, to, e.relation)
  {
    var r, dest := EdgeEnds(raws, projectKey, nodes, evidence, edges, e);
    SameNodeSameArtifact(raws, projectKey, dest, to);
    source := r;
  }

  lemma IncomingIsLink(raws: seq<Raw>, projectKey: string, nodes: seq<Node>, evidence: set<string>, edges: seq<Edge>, to: Raw,
                       relations: set<string>) returns (source: Raw, relation: string)
    requires Analysed(raws, projectKey, nodes, evidence, edges) && to in raws && Incoming(edges, ExtractNode(to).nodeId, relations)
    ensures source in raws && relation in relations && Resolves(source, to, relation)
  {
    var e :| e in edges && e.target == ExtractNode(to).nodeId && e.relation in relations;
    source := EdgeToArtifact(raws, projectKey, nodes, evidence, edges, to, e);
    relation := e.relation;
  }

  lemma ImplementingLinkIsEdge(raws: seq<Raw>, projectKey: string, nodes: seq<Node>, evidence: set<string>, edges: seq<Edge>,
                               r: Raw, requirement: Raw)
    requires Analysed(raws, projectKey, nodes, evidence, edges)
    requires r in raws && requirement in raws && requirement.nodeType == Requirement && Implements(r, requirement)
    ensures Incoming(edges, ExtractNode(requirement).nodeId, {"satisfies", "implements"})
  {
    ImplementsIff(r, requirement);
    var word := if Resolves(r, requirement, "satisfies") then "satisfies" else "implements";
    EdgesAreLinks(raws, projectKey, nodes, evidence, edges, r, requirement, word);
    var e := Edge(ExtractNode(r).nodeId, word, ExtractNode(requirement).nodeId);
    assert e in edges && e.target == ExtractNode(requirement).nodeId && e.relation in {"satisfies", "implements"};
  }

  /** End to end: a design is reported without parent exactly when it links to no artifact, or only with words that trace nothing. */
  lemma DesignWithoutParentIffNoLink(raws: seq<Raw>, projectKey: string, nodes: seq<Node>, evidence: set<string>, edges: seq<Edge>, design: Raw)
    requires Analysed(raws, projectKey, nodes, evidence, edges)
    requires design in raws && design.nodeType == DesignSpec
    ensures Flagged(DesignWithoutParent, ExtractNode(design), edges) <==> !(exists t :: t in raws && TracesTo(design, t))
  {
    var node := ExtractNode(design).nodeId;
    if Outgoing(edges, node, TRACES) {
      var e :| e in edges && e.source == node && e.relation in TRACES;
      var source, dest := EdgeEnds(raws, projectKey, nodes, evidence, edges, e);
      SameNodeSameArtifact(raws, projectKey, source, design);
      TracesIff(design, dest);
    }
    if t :| t in raws && TracesTo(design, t) {
      TracesIff(design, t);
      var relation :| relation in TRACES && Resolves(design, t, relation);
      EdgesAreLinks(raws, projectKey, nodes, evidence, edges, design, t, relation);
      assert Edge(node, relation, ExtractNode(t).nodeId).source == node;
    }
  }

  /** End to end: an architecture block is reported exactly when nothing verifies it and nothing it traces to is verified. */
  lemma UnverifiedArchitecture(raws: seq<Raw>, projectKey: string, nodes: seq<Node>, evidence: set<string>,
                               edges: seq<Edge>, block: Raw)
    requires Analysed(raws, projectKey, nodes, evidence, edges)
    requires block in raws && block.nodeType == ArchitectureBlock
    ensures Flagged(ArchitectureWithoutVerificationPath, ExtractNode(block), edges) <==>
            !VerifiedByLink(raws, block) && !TracedToVerified(raws, block)
  {
    VerifiedIffLinked(raws, projectKey, nodes, evidence, edges, block);
    TracedHasPath(raws, projectKey, nodes, evidence, edges, block);
    PathIsTraced(raws, projectKey, nodes, evidence, edges, block);
    assert ExtractNode(block).nodeType == ArchitectureBlock;
    DirectIsPath(edges, ExtractNode(block).nodeId);
  }

  lemma DirectIsPath(edges: seq<Edge>, node: string)
    ensures Incoming(edges, node, {"verifies"}) ==> VerificationPath(edges, node)
  {
  }

  lemma TracedHasPath(raws: seq<Raw>, projectKey: string, nodes: seq<Node>, evidence: set<string>, edges: seq<Edge>, block: Raw)
    requires Analysed(raws, projectKey, nodes, evidence, edges) && block in raws && block.nodeType == ArchitectureBlock
    ensures TracedToVerified(raws, block) ==> VerificationPath(edges, ExtractNode(block).nodeId)
  {
    if TracedToVerified(raws, block) {
      TraceFromLinks(raws, projectKey, nodes, evidence, edges, block);
    }
  }

  lemma PathIsTraced(raws: seq<Raw>, projectKey: string, nodes: seq<Node>, evidence: set<string>, edges: seq<Edge>, block: Raw)
    requires Analysed(raws, projectKey, nodes, evidence, edges) && block in raws && block.nodeType == ArchitectureBlock
    ensures VerificationPath(edges, ExtractNode(block).nodeId) ==>
              Incoming(edges, ExtractNode(block).nodeId, {"verifies"}) || TracedToVerified(raws, block)
  {
    if e :| e in edges && e.source == ExtractNode(block).nodeId && e.relation in TRACES && Incoming(edges, e.target, {"verifies"}) {
      TraceIntoLinks(raws, projectKey, nodes, evidence, edges, block, e);
    }
  }

  lemma FlaggedOnce(raws: seq<Raw>, projectKey: string, nodes: seq<Node>, edges: seq<Edge>, rule: Rule, raw: Raw)
    requires CleanFetch(raws, projectKey) && Extracted(nodes, raws) && raw in raws
    ensures (exists n :: n in nodes && n.nodeId == ExtractNode(raw).nodeId && Flagged(rule, n, edges)) <==>
            Flagged(rule, ExtractNode(raw), edges)
  {
    var i :| 0 <= i < |raws| && raws[i] == raw;
    assert nodes[i] in nodes;
    if n :| n in nodes && n.nodeId == ExtractNode(raw).nodeId && Flagged(rule, n, edges) {
      var j :| 0 <= j < |nodes| && nodes[j] == n;
      SameNodeSameArtifact(raws, projectKey, raws[j], raw);
    }
  }

  /** Extraction, linking and gap rules in sequence, for one fetch with evidence for every artifact. */
  method AnalyseFetch(raws: seq<Raw>, ghost projectKey: string) returns (findings: seq<Finding>)
    requires CleanFetch(raws, projectKey)
    ensures forall r :: r in raws && r.nodeType == Requirement ==>
      (Finding(ReqWithoutVerification, ExtractNode(r).nodeId) in findings <==> !VerifiedByLink(raws, r))
    ensures forall r :: r in raws && r.nodeType == ArchitectureBlock ==>
      (Finding(ArchitectureWithoutVerificationPath, ExtractNode(r).nodeId) in findings <==>
       !VerifiedByLink(raws, r) && !TracedToVerified(raws, r))
    ensures forall r :: r in raws && r.nodeType == Requirement ==>
      (Finding(ReqWithoutImplementation, ExtractNode(r).nodeId) in findings <==> !ImplementedByLink(raws, r))
    ensures forall r :: r in raws && r.nodeType == DesignSpec ==>
      (Finding(DesignWithoutParent, ExtractNode(r).nodeId) in findings <==> !exists t :: t in raws && TracesTo(r, t))
  {
    var nodes := seq(|raws|, i requires 0 <= i < |raws| => ExtractNode(raws[i]));
    var evidence := set r | r in raws :: r.externalId;
    var edges := LinkEdges(raws, nodes, evidence);
    findings := GapFindings(nodes, edges);
    forall r | r in raws && r.nodeType == Requirement
      ensures Finding(ReqWithoutVerification, ExtractNode(r).nodeId) in findings <==> !VerifiedByLink(raws, r)
    {
      FlaggedOnce(raws, projectKey, nodes, edges, ReqWithoutVerification, r);
      UnverifiedIffNoVerifyingLink(raws, projectKey, nodes, evidence, edges, r);
    }
    forall r | r in raws && r.nodeType == Requirement
      ensures Finding(ReqWithoutImplementation, ExtractNode(r).nodeId) in findings <==> !ImplementedByLink(raws, r)
    {
      FlaggedOnce(raws, projectKey, nodes, edges, ReqWithoutImplementation, r);
      UnimplementedIffNoLink(raws, projectKey, nodes, evidence, edges, r);
    }
    forall r | r in raws && r.nodeType == DesignSpec
      ensures Finding(DesignWithoutParent, ExtractNode(r).nodeId) in findings <==> !exists t :: t in raws && TracesTo(r, t)
    {
      FlaggedOnce(raws, projectKey, nodes, edges, DesignWithoutParent, r);
      DesignWithoutParentIffNoLink(raws, projectKey, nodes, evidence, edges, r);
    }
    forall r | r in raws && r.nodeType == ArchitectureBlock
      ensures Finding(ArchitectureWithoutVerificationPath, ExtractNode(r).nodeId) in findings <==>
              !VerifiedByLink(raws, r) && !TracedToVerified(raws, r)
    {
      FlaggedOnce(raws, projectKey, nodes, edges, ArchitectureWithoutVerificationPath, r);
      UnverifiedArchitecture(raws, projectKey, nodes, evidence, edges, r);
    }
  }
}
