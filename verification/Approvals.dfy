/** Staging candidate edges for approval, deciding them, and committing deltas to the in-memory graph. */
module Approvals {
  import opened Text

  // ---- contracts ----

  datatype EdgeStatus = EdgePending | EdgeApproved | EdgeRejected | EdgeModified | EdgeExpired

  /** `body` stands for the fields no rule looks at: relation, reasoning, evidence, confidence. */
  datatype Edge = Edge(edgeId: string, source: string, target: string, body: string,
                       status: EdgeStatus, approvedBy: Option<string>, approvedAt: Option<nat>)

  predicate NonEmpty(s: Option<string>) { s.Some? && s.value != "" }

  /** The model validator of an edge. */
  predicate ValidEdge(e: Edge) { e.status == EdgeApproved ==> NonEmpty(e.approvedBy) }

  predicate ApprovedEdge(e: Edge) { e.status == EdgeApproved && NonEmpty(e.approvedBy) }

  datatype Payload =
    | EdgePayload(edge: Edge, wellTyped: bool)
    | NodePayload(nodeId: string, body: string, wellTyped: bool)

  datatype OperationKind = CreateNode | UpdateNode | CreateEdge | UpdateEdge | ExpireEdge
  datatype Operation = Operation(kind: OperationKind, targetId: string, payload: Payload)
  datatype Delta = Delta(deltaId: string, projectKey: string, operations: seq<Operation>, runId: string, stepId: string)

  /** The stable hash is injective, so the hash of an edge is modelled by the edge and an approval id by its hash. */
  datatype ApprovalId = ApprovalId(proposal: Edge)

  datatype ItemStatus = Pending | Approved | Rejected | ModifiedApproved | Held | Stale
  datatype Item = Item(approvalId: ApprovalId, projectKey: string, proposalRef: string, deltaRef: Option<string>,
                       status: ItemStatus, proposalHash: Edge, version: nat, runId: string, stepId: string)

  datatype Action = Approve | Reject | Modify | Hold

  /** Field overrides; `malformed` when some override is refused by validation whatever the rest says. */
  datatype Correction = Correction(edgeId: Option<string>, source: Option<string>, target: Option<string>,
                                   body: Option<string>, status: Option<EdgeStatus>, approvedBy: Option<Option<string>>,
                                   approvedAt: Option<Option<nat>>, malformed: bool)

  const NO_OVERRIDES := Correction(None, None, None, None, None, None, None, false)

  /** An unrecognised reason code is only refused when the feedback event is built. */
  datatype Reason = NoReason | Known(code: string) | Unknown(text: string)

  datatype Decision = Decision(approvalId: ApprovalId, action: Action, decidedBy: string, expectedVersion: Option<nat>,
                               expectedHash: Option<Edge>, decidedAt: nat, correction: Option<Correction>, reason: Reason)

  datatype FeedbackAction = FeedbackApproved | FeedbackRejected | FeedbackModified | FeedbackCommented
  datatype Feedback = Feedback(decision: Decision, targetId: string, action: FeedbackAction)

  /** `{approval_id}:{version}`, with `:modify` for a corrected commit. */
  datatype Key = Key(approvalId: ApprovalId, version: nat, corrected: bool)

  // ---- the graph backend ----

  datatype Graph = Graph(nodes: map<string, Payload>, edges: map<string, Edge>, keys: set<Key>)

  const EMPTY_GRAPH := Graph(map[], map[], {})

  predicate OperationValid(op: Operation) {
    match op.kind
    case CreateNode => op.payload.NodePayload? && op.payload.wellTyped
    case CreateEdge => op.payload.EdgePayload? && op.payload.wellTyped && ValidEdge(op.payload.edge)
    case _ => true
  }

  function Perform(g: Graph, op: Operation): Graph
    requires OperationValid(op)
  {
    match op.kind
    case CreateNode => g.(nodes := g.nodes[op.payload.nodeId := op.payload])
    case CreateEdge => g.(edges := g.edges[op.payload.edge.edgeId := op.payload.edge])
    case _ => g
  }

  predicate DeltaValid(ops: seq<Operation>) {
    forall i :: 0 <= i < |ops| ==> OperationValid(ops[i])
  }

  function PerformAll(g: Graph, ops: seq<Operation>): Graph
    requires DeltaValid(ops)
  {
    if ops == [] then g
    else
      assert forall i :: 0 <= i < |ops| - 1 ==> OperationValid(ops[i]);
      Perform(PerformAll(g, ops[..|ops| - 1]), ops[|ops| - 1])
  }

  /** A key is used once; later deltas under it are skipped. */
  function Commit(g: Graph, delta: Delta, key: Key): Graph
    requires DeltaValid(delta.operations)
  {
    if key in g.keys then g
    else
      var done := PerformAll(g, delta.operations);
      done.(keys := done.keys + {key})
  }

  /** The operations before the `n`-th were performed, and the `n`-th is refused. */
  ghost predicate StopsAt(g: Graph, ops: seq<Operation>, n: nat, after: Graph)
    requires n < |ops|
  {
    DeltaValid(ops[..n]) && !OperationValid(ops[n]) && after == PerformAll(g, ops[..n])
  }

  /** Nodes and edges are validated when they are created, and put under their own ids; the other operations do nothing. */
  lemma OneOperation(g: Graph, op: Operation)
    ensures op.kind == CreateNode ==> (OperationValid(op) <==> op.payload.NodePayload? && op.payload.wellTyped)
    ensures op.kind == CreateEdge ==>
              (OperationValid(op) <==> op.payload.EdgePayload? && op.payload.wellTyped
                                       && (op.payload.edge.status == EdgeApproved ==>
                                             op.payload.edge.approvedBy.Some? && op.payload.edge.approvedBy.value != ""))
    ensures op.kind == CreateNode && OperationValid(op) ==> Perform(g, op) == Graph(g.nodes[op.payload.nodeId := op.payload], g.edges, g.keys)
    ensures op.kind == CreateEdge && OperationValid(op) ==>
              Perform(g, op) == Graph(g.nodes, g.edges[op.payload.edge.edgeId := op.payload.edge], g.keys)
    ensures op.kind != CreateNode && op.kind != CreateEdge ==> OperationValid(op) && Perform(g, op) == g
  {
  }

  class MemoryGraphBackend {
    var nodes: map<string, Payload>
    var edges: map<string, Edge>
    var keys: set<Key>

    constructor ()
      ensures Value() == EMPTY_GRAPH
    {
      nodes, edges, keys := map[], map[], {};
    }

    ghost function Value(): Graph
      reads this
    {
      Graph(nodes, edges, keys)
    }

    /** A refused operation raises: what was performed before it stays, nothing after it is performed, and the key is not recorded. */
    method ApplyDelta(delta: Delta, key: Key) returns (ok: bool)
      modifies this
      ensures DeltaValid(delta.operations) ==> ok && Value() == Commit(old(Value()), delta, key)
      ensures ok <==> key in old(keys) || DeltaValid(delta.operations)
      ensures key in old(keys) ==> Value() == old(Value())
      ensures !ok ==> keys == old(keys) && key !in keys && !DeltaValid(delta.operations)
      ensures !ok ==> exists n :: 0 <= n < |delta.operations| && StopsAt(old(Value()), delta.operations, n, Value())
    {
      if key in keys {
        return true;
      }
      for i := 0 to |delta.operations|
        invariant keys == old(keys)
        invariant DeltaValid(delta.operations[..i]) && Value() == PerformAll(old(Value()), delta.operations[..i])
      {
        var operation := delta.operations[i];
        assert delta.operations[..i + 1] == delta.operations[..i] + [operation];
        if !OperationValid(operation) {
          assert StopsAt(old(Value()), delta.operations, i, Value());
          return false;
        }
        if operation.kind == CreateNode {
          nodes := nodes[operation.payload.nodeId := operation.payload];
        } else if operation.kind == CreateEdge {
          edges := edges[operation.payload.edge.edgeId := operation.payload.edge];
        }
      }
      assert delta.operations[..|delta.operations|] == delta.operations;
      keys := keys + {key};
      ok := true;
    }
  }

  // ---- staging ----

  datatype Service = Service(items: map<ApprovalId, Item>, deltas: map<string, Delta>, feedback: seq<Feedback>)

  const EMPTY_SERVICE := Service(map[], map[], [])

  function StagedDelta(projectKey: string, runId: string, stepId: string, e: Edge): Delta {
    Delta("delta_" + e.edgeId, projectKey,
          [Operation(CreateEdge, e.edgeId,
                     EdgePayload(e.(status := EdgeApproved, approvedBy := Some("system")), true))],
          runId, stepId)
  }

  function StagedItem(projectKey: string, runId: string, stepId: string, e: Edge): Item {
    Item(ApprovalId(e), projectKey, e.edgeId, Some("delta_" + e.edgeId), Pending, e, 1, runId, stepId)
  }

  function StageOne(s: Service, projectKey: string, runId: string, stepId: string, e: Edge): Service {
    s.(items := s.items[ApprovalId(e) := StagedItem(projectKey, runId, stepId, e)],
       deltas := s.deltas["delta_" + e.edgeId := StagedDelta(projectKey, runId, stepId, e)])
  }

  /** Later edges overwrite earlier ones, and staging an edge again puts its item back to pending. */
  function StageAll(s: Service, projectKey: string, runId: string, stepId: string, edges: seq<Edge>): Service {
    if edges == [] then s
    else StageOne(StageAll(s, projectKey, runId, stepId, edges[..|edges| - 1]), projectKey, runId, stepId, edges[|edges| - 1])
  }

  // ---- deciding ----

  predicate EmptyCorrection(c: Correction) {
    c == NO_OVERRIDES
  }

  predicate HasCorrection(d: Decision) {
    d.correction.Some? && !EmptyCorrection(d.correction.value)
  }

  function Or<T>(override: Option<T>, current: T): T {
    if override.Some? then override.value else current
  }

  /** `payload.update(correction_payload)` */
  function Corrected(e: Edge, c: Correction): Edge {
    Edge(Or(c.edgeId, e.edgeId), Or(c.source, e.source), Or(c.target, e.target), Or(c.body, e.body),
         Or(c.status, e.status), Or(c.approvedBy, e.approvedBy), Or(c.approvedAt, e.approvedAt))
  }

  /** The approval fields are written after the correction, then the edge is validated. */
  function CorrectedOperation(op: Operation, d: Decision): Option<Operation> {
    var c := if d.correction.Some? then d.correction.value else NO_OVERRIDES;
    match op.payload
    case NodePayload(_, _, _) =>
      if op.kind == CreateEdge then None
      else Some(op.(payload := op.payload.(wellTyped := op.payload.wellTyped && !c.malformed)))
    case EdgePayload(e, wellTyped) =>
      var e' := Corrected(e, c);
      if op.kind != CreateEdge then Some(op.(payload := EdgePayload(e', wellTyped && !c.malformed)))
      else
        var approved := e'.(status := EdgeApproved, approvedBy := Some(d.decidedBy), approvedAt := Some(d.decidedAt));
        if wellTyped && !c.malformed && ValidEdge(approved) then Some(op.(payload := EdgePayload(approved, true))) else None
  }

  /** A correction of another operation than the creation of an edge is never refused; it loses its type if an override is malformed. */
  lemma OtherOperationCorrected(op: Operation, d: Decision)
    requires op.kind != CreateEdge && d.correction.Some?
    ensures CorrectedOperation(op, d).Some?
    ensures CorrectedOperation(op, d).value.kind == op.kind && CorrectedOperation(op, d).value.targetId == op.targetId
    ensures CorrectedOperation(op, d).value.payload.wellTyped <==> op.payload.wellTyped && !d.correction.value.malformed
    ensures op.payload.EdgePayload? ==>
              && CorrectedOperation(op, d).value.payload.EdgePayload?
              && CorrectedOperation(op, d).value.payload.edge == Corrected(op.payload.edge, d.correction.value)
  {
  }

  /** A node cannot be created as an edge. */
  lemma NodeIsNoEdge(op: Operation, d: Decision)
    requires op.kind == CreateEdge && op.payload.NodePayload?
    ensures CorrectedOperation(op, d).None?
  {
  }

  function CorrectedOperations(ops: seq<Operation>, d: Decision): Option<seq<Operation>> {
    if ops == [] then Some([])
    else
      var first, rest := CorrectedOperation(ops[0], d), CorrectedOperations(ops[1..], d);
      if first.None? || rest.None? then None else Some([first.value] + rest.value)
  }

  function ModifiedDelta(original: Delta, item: Item, d: Decision): Option<Delta> {
    var ops := CorrectedOperations(original.operations, d);
    if ops.None? then None
    else Some(original.(deltaId := original.deltaId + "_modified_v" + Decimal(item.version), operations := ops.value))
  }

  predicate IsStaleDecision(item: Item, d: Decision) {
    || (d.expectedVersion.Some? && d.expectedVersion.value != item.version)
    || (d.expectedHash.Some? && d.expectedHash.value != item.proposalHash)
  }

  datatype Error = UnknownApproval | MissingDelta | InvalidCorrection | InvalidReason
  datatype Outcome = Returned(item: Item) | Raised(error: Error)

  /** What a decision on a pending, current item does to the graph. */
  datatype Effect = NoCommit | Commits(delta: Delta, key: Key) | Fails(error: Error)

  function EffectOf(s: Service, item: Item, d: Decision): Effect {
    if d.action == Approve && item.deltaRef.Some? then
      if item.deltaRef.value in s.deltas then Commits(s.deltas[item.deltaRef.value], Key(d.approvalId, item.version, false))
      else Fails(MissingDelta)
    else if d.action == Reject || d.action == Hold then NoCommit
    else if item.deltaRef.Some? && HasCorrection(d) then
      if item.deltaRef.value !in s.deltas then Fails(MissingDelta)
      else
        var delta := ModifiedDelta(s.deltas[item.deltaRef.value], item, d);
        if delta.None? then Fails(InvalidCorrection) else Commits(delta.value, Key(d.approvalId, item.version, true))
    else NoCommit
  }

  /** A corrected delta is filed under its own id. */
  function DeltasAfter(deltas: map<string, Delta>, effect: Effect): map<string, Delta> {
    if effect.Commits? && effect.key.corrected then deltas[effect.delta.deltaId := effect.delta] else deltas
  }

  function StatusAfter(item: Item, d: Decision): ItemStatus {
    if d.action == Approve && item.deltaRef.Some? then Approved
    else if d.action == Reject then Rejected
    else if d.action == Hold then Held
    else ModifiedApproved
  }

  function FeedbackFor(status: ItemStatus): FeedbackAction {
    match status
    case Approved => FeedbackApproved
    case ModifiedApproved => FeedbackModified
    case Held => FeedbackCommented
    case _ => FeedbackRejected
  }

  /** The decision reaches an item that is pending. */
  predicate Effective(s: Service, d: Decision) {
    d.approvalId in s.items && s.items[d.approvalId].status == Pending
  }

  predicate Current(s: Service, d: Decision) {
    Effective(s, d) && !IsStaleDecision(s.items[d.approvalId], d)
  }

  /** The commit a decision attempts, if any. */
  function Attempt(s: Service, d: Decision): Effect {
    if Current(s, d) then EffectOf(s, s.items[d.approvalId], d) else NoCommit
  }

  /** The service after a decision. A refused correction leaves everything as it was; an unknown reason code raises
      only after the commit and the item update. */
  function DecideService(s: Service, d: Decision): (Service, Outcome) {
    if d.approvalId !in s.items then (s, Raised(UnknownApproval))
    else
      var item := s.items[d.approvalId];
      if item.status != Pending then (s, Returned(item))
      else if IsStaleDecision(item, d) then
        var updated := item.(status := Stale, version := item.version + 1);
        (s.(items := s.items[d.approvalId := updated]), Returned(updated))
      else
        var effect := EffectOf(s, item, d);
        if effect.Fails? then (s, Raised(effect.error))
        else
          var updated := item.(status := StatusAfter(item, d), version := item.version + 1);
          var s' := s.(items := s.items[d.approvalId := updated],
                       deltas := DeltasAfter(s.deltas, effect));
          if d.reason.Unknown? then (s', Raised(InvalidReason))
          else (s'.(feedback := s'.feedback + [Feedback(d, item.proposalRef, FeedbackFor(updated.status))]), Returned(updated))
  }

  // ---- what every reachable state keeps ----

  /** A delta of one operation that creates an approved edge. */
  predicate SoundDelta(delta: Delta) {
    && |delta.operations| == 1
    && var op := delta.operations[0];
       op.kind == CreateEdge && op.payload.EdgePayload? && op.payload.wellTyped && ApprovedEdge(op.payload.edge)
  }

  ghost predicate Sound(s: Service) {
    && (forall id :: id in s.deltas ==> SoundDelta(s.deltas[id]))
    && (forall id :: id in s.items ==>
          var item := s.items[id];
          && item.approvalId == id
          && item.deltaRef.Some? && item.deltaRef.value in s.deltas
          && item.version == (if item.status == Pending then 1 else 2))
  }

  function WithEdge(edges: map<string, Edge>, delta: Delta): map<string, Edge>
    requires SoundDelta(delta)
  {
    var e := delta.operations[0].payload.edge;
    edges[e.edgeId := e]
  }

  lemma SoundDeltaValid(delta: Delta)
    requires SoundDelta(delta)
    ensures DeltaValid(delta.operations)
  {
  }

  lemma PerformSound(g: Graph, delta: Delta)
    requires SoundDelta(delta) && DeltaValid(delta.operations)
    ensures PerformAll(g, delta.operations) == g.(edges := WithEdge(g.edges, delta))
  {
    assert delta.operations[..0] == [];
  }

  lemma ModifiedDeltaSound(original: Delta, item: Item, d: Decision)
    requires SoundDelta(original)
    ensures ModifiedDelta(original, item, d).None? <==>
      d.decidedBy == "" || (d.correction.Some? && d.correction.value.malformed)
    ensures ModifiedDelta(original, item, d).Some? ==>
      var delta := ModifiedDelta(original, item, d).value;
      && SoundDelta(delta) && delta.operations[0].targetId == original.operations[0].targetId
      && delta.operations[0].payload.edge.approvedBy == Some(d.decidedBy)
  {
    assert original.operations[1..] == [];
    assert CorrectedOperations([], d) == Some([]);
  }

  lemma EffectSound(s: Service, d: Decision)
    requires Sound(s) && Attempt(s, d).Commits?
    ensures SoundDelta(Attempt(s, d).delta)
  {
    var item := s.items[d.approvalId];
    ModifiedDeltaSound(s.deltas[item.deltaRef.value], item, d);
  }

  lemma StageKeepsSound(s: Service, projectKey: string, runId: string, stepId: string, e: Edge)
    requires Sound(s)
    ensures Sound(StageOne(s, projectKey, runId, stepId, e))
  {
  }

  lemma {:induction false} StageAllKeepsSound(s: Service, projectKey: string, runId: string, stepId: string, edges: seq<Edge>)
    requires Sound(s)
    ensures Sound(StageAll(s, projectKey, runId, stepId, edges))
  {
    if edges != [] {
      StageAllKeepsSound(s, projectKey, runId, stepId, edges[..|edges| - 1]);
    }
  }

  predicate Among(approvals: seq<Item>, id: ApprovalId) {
    exists i :: 0 <= i < |approvals| && approvals[i].approvalId == id
  }

  /** The items are the old ones with the new ones filed under their ids. */
  ghost predicate StagesItems(before: map<ApprovalId, Item>, after: map<ApprovalId, Item>, approvals: seq<Item>) {
    && (forall id :: id in after <==> id in before || Among(approvals, id))
    && (forall id :: id in before && !Among(approvals, id) ==> after[id] == before[id])
    && forall id :: Among(approvals, id) ==> id in after && after[id] in approvals
  }

  function StagedItems(projectKey: string, runId: string, stepId: string, edges: seq<Edge>): (r: seq<Item>)
    ensures |r| == |edges| && forall i :: 0 <= i < |edges| ==> r[i] == StagedItem(projectKey, runId, stepId, edges[i])
  {
    if edges == [] then []
    else StagedItems(projectKey, runId, stepId, edges[..|edges| - 1]) + [StagedItem(projectKey, runId, stepId, edges[|edges| - 1])]
  }

  lemma StagesOneMore(before: map<ApprovalId, Item>, after: map<ApprovalId, Item>, approvals: seq<Item>, item: Item)
    requires StagesItems(before, after, approvals)
    ensures StagesItems(before, after[item.approvalId := item], approvals + [item])
  {
    var more := approvals + [item];
    assert more[|approvals|] == item && forall i :: 0 <= i < |approvals| ==> more[i] == approvals[i];
    forall id ensures Among(more, id) <==> Among(approvals, id) || id == item.approvalId {}
  }

  /** Staging makes the items of its edges, replacing those there are, and touches no other. */
  lemma {:induction false} StageAllItems(s: Service, projectKey: string, runId: string, stepId: string, edges: seq<Edge>)
    ensures StagesItems(s.items, StageAll(s, projectKey, runId, stepId, edges).items, StagedItems(projectKey, runId, stepId, edges))
  {
    if edges != [] {
      var init, last := edges[..|edges| - 1], edges[|edges| - 1];
      StageAllItems(s, projectKey, runId, stepId, init);
      StagesOneMore(s.items, StageAll(s, projectKey, runId, stepId, init).items, StagedItems(projectKey, runId, stepId, init),
                    StagedItem(projectKey, runId, stepId, last));
    }
  }

  lemma DecidedItemSound(s: Service, d: Decision, id: ApprovalId)
    requires Sound(s) && id in DecideService(s, d).0.items
    ensures var t := DecideService(s, d).0;
            var item := t.items[id];
            && id in s.items && item.approvalId == id && item.deltaRef == s.items[id].deltaRef
            && item.version == (if item.status == Pending then 1 else 2)
  {
  }

  lemma DecideKeepsSound(s: Service, d: Decision)
    requires Sound(s)
    ensures Sound(DecideService(s, d).0)
  {
    DecideDeltas(s, d);
    if Attempt(s, d).Commits? {
      EffectSound(s, d);
    }
    var t := DecideService(s, d).0;
    forall id | id in t.items
      ensures t.items[id].approvalId == id && t.items[id].deltaRef.Some? && t.items[id].deltaRef.value in t.deltas
      ensures t.items[id].version == (if t.items[id].status == Pending then 1 else 2)
    {
      DecidedItemSound(s, d, id);
    }
  }

  // ---- the service ----

  class ApprovalService {
    var items: map<ApprovalId, Item>
    var deltas: map<string, Delta>
    var feedback: seq<Feedback>

    constructor ()
      ensures Value() == EMPTY_SERVICE && Valid()
    {
      items, deltas, feedback := map[], map[], [];
    }

    ghost function Value(): Service
      reads this
    {
      Service(items, deltas, feedback)
    }

    ghost predicate Valid()
      reads this
    {
      Sound(Value())
    }

    method StageEdges(projectKey: string, runId: string, stepId: string, edges: seq<Edge>) returns (approvals: seq<Item>)
      requires Valid()
      modifies this
      ensures Valid() && Value() == StageAll(old(Value()), projectKey, runId, stepId, edges)
      ensures |approvals| == |edges|
      ensures forall i :: 0 <= i < |edges| ==>
                approvals[i] == Item(ApprovalId(edges[i]), projectKey, edges[i].edgeId, Some("delta_" + edges[i].edgeId), Pending, edges[i], 1,
                                     runId, stepId)
      ensures StagesItems(old(items), items, approvals)
      ensures forall i :: 0 <= i < |edges| ==> approvals[i] == StagedItem(projectKey, runId, stepId, edges[i])
    {
      approvals := [];
      for i := 0 to |edges|
        invariant Value() == StageAll(old(Value()), projectKey, runId, stepId, edges[..i])
        invariant |approvals| == i
        invariant forall k :: 0 <= k < i ==> approvals[k] == StagedItem(projectKey, runId, stepId, edges[k])
      {
        assert edges[..i + 1][..i] == edges[..i];
        var delta := StagedDelta(projectKey, runId, stepId, edges[i]);
        var approval := StagedItem(projectKey, runId, stepId, edges[i]);
        items := items[approval.approvalId := approval];
        deltas := deltas[delta.deltaId := delta];
        approvals := approvals + [approval];
      }
      assert edges[..|edges|] == edges;
      StageAllKeepsSound(old(Value()), projectKey, runId, stepId, edges);
      StageAllItems(old(Value()), projectKey, runId, stepId, edges);
      assert approvals == StagedItems(projectKey, runId, stepId, edges);
    }

    method Decide(d: Decision, graph: MemoryGraphBackend) returns (outcome: Outcome)
      requires Valid()
      modifies this, graph
      ensures Valid() && (Value(), outcome) == DecideService(old(Value()), d)
      ensures graph.Value() == CommitEffect(old(graph.Value()), old(Value()), d)
    {
      DecideKeepsSound(Value(), d);
      if d.approvalId !in items {
        return Raised(UnknownApproval);
      }
      var item := items[d.approvalId];
      if item.status != Pending {
        return Returned(item);
      }
      if IsStaleDecision(item, d) {
        var updated := item.(status := Stale, version := item.version + 1);
        items := items[d.approvalId := updated];
        return Returned(updated);
      }
      var status := CommitDecision(item, d, graph);
      if status.None? {
        return Raised(InvalidCorrection);
      }
      var updated := item.(status := status.value, version := item.version + 1);
      items := items[d.approvalId := updated];
      if d.reason.Unknown? {
        return Raised(InvalidReason);
      }
      feedback := feedback + [Feedback(d, item.proposalRef, FeedbackFor(status.value))];
      outcome := Returned(updated);
    }

    /** The branches of `decide` on a pending, current item; no status when a correction is refused. */
    method CommitDecision(item: Item, d: Decision, graph: MemoryGraphBackend) returns (status: Option<ItemStatus>)
      requires Valid() && Current(Value(), d) && item == items[d.approvalId]
      modifies this, graph
      ensures items == old(items) && feedback == old(feedback)
      ensures deltas == DeltasAfter(old(deltas), Attempt(old(Value()), d))
      ensures status == if Attempt(old(Value()), d).Fails? then None else Some(StatusAfter(item, d))
      ensures Attempt(old(Value()), d).Fails? ==> Attempt(old(Value()), d).error == InvalidCorrection
      ensures graph.Value() == CommitEffect(old(graph.Value()), old(Value()), d)
    {
      var ok;
      if d.action == Approve && item.deltaRef.Some? {
        SoundDeltaValid(deltas[item.deltaRef.value]);
        ok := graph.ApplyDelta(deltas[item.deltaRef.value], Key(d.approvalId, item.version, false));
        return Some(Approved);
      } else if d.action == Reject {
        return Some(Rejected);
      } else if d.action == Hold {
        return Some(Held);
      }
      if item.deltaRef.Some? && HasCorrection(d) {
        var delta := ModifiedDelta(deltas[item.deltaRef.value], item, d);
        if delta.None? {
          return None;
        }
        ModifiedDeltaSound(deltas[item.deltaRef.value], item, d);
        SoundDeltaValid(delta.value);
        deltas := deltas[delta.value.deltaId := delta.value];
        ok := graph.ApplyDelta(delta.value, Key(d.approvalId, item.version, true));
      }
      return Some(ModifiedApproved);
    }
  }

  /** The graph after a decision: at most one commit, skipped when its key was used before. */
  function CommitEffect(g: Graph, s: Service, d: Decision): Graph
    requires Sound(s)
  {
    var effect := Attempt(s, d);
    if effect.Commits? then
      EffectSound(s, d);
      SoundDeltaValid(effect.delta);
      Commit(g, effect.delta, effect.key)
    else g
  }

  // ---- runs ----

  datatype Event = StageEvent(projectKey: string, runId: string, stepId: string, edges: seq<Edge>) | DecideEvent(decision: Decision)

  /** `log` records every commit attempted, in order. */
  datatype World = World(service: Service, graph: Graph, log: seq<(Key, Delta)>)

  const START := World(EMPTY_SERVICE, EMPTY_GRAPH, [])

  function Next(w: World, event: Event): World
    requires Sound(w.service)
  {
    match event
    case StageEvent(projectKey, runId, stepId, edges) =>
      w.(service := StageAll(w.service, projectKey, runId, stepId, edges))
    case DecideEvent(d) =>
      var effect := Attempt(w.service, d);
      World(DecideService(w.service, d).0, CommitEffect(w.graph, w.service, d),
            if effect.Commits? then w.log + [(effect.key, effect.delta)] else w.log)
  }

  function KeysOf(log: seq<(Key, Delta)>): set<Key> {
    set i | 0 <= i < |log| :: log[i].0
  }

  /** The entries whose key no earlier entry has. */
  function FirstUses(log: seq<(Key, Delta)>): seq<(Key, Delta)> {
    if log == [] then []
    else
      var earlier, last := log[..|log| - 1], log[|log| - 1];
      if last.0 in KeysOf(earlier) then FirstUses(earlier) else FirstUses(earlier) + [last]
  }

  predicate SoundLog(log: seq<(Key, Delta)>) {
    forall i :: 0 <= i < |log| ==> SoundDelta(log[i].1)
  }

  /** The edge map that committing these deltas one after the other builds. */
  function Fold(log: seq<(Key, Delta)>): map<string, Edge>
    requires SoundLog(log)
  {
    if log == [] then map[]
    else
      assert SoundLog(log[..|log| - 1]);
      WithEdge(Fold(log[..|log| - 1]), log[|log| - 1].1)
  }

  ghost predicate Consistent(w: World) {
    && Sound(w.service)
    && SoundLog(w.log) && SoundLog(FirstUses(w.log))
    && w.graph.keys == KeysOf(w.log)
    && w.graph.edges == Fold(FirstUses(w.log))
    && w.graph.nodes == map[]
    && forall id :: id in w.graph.edges ==> ApprovedEdge(w.graph.edges[id])
  }

  lemma KeysSnoc(log: seq<(Key, Delta)>, key: Key, delta: Delta)
    ensures KeysOf(log + [(key, delta)]) == KeysOf(log) + {key}
  {
    var more := log + [(key, delta)];
    assert more[|log|].0 == key;
    assert forall i :: 0 <= i < |log| ==> more[i] == log[i];
  }

  lemma FoldSnoc(log: seq<(Key, Delta)>, key: Key, delta: Delta)
    requires SoundLog(log) && SoundDelta(delta)
    ensures SoundLog(log + [(key, delta)]) && Fold(log + [(key, delta)]) == WithEdge(Fold(log), delta)
  {
    assert (log + [(key, delta)])[..|log|] == log;
  }

  lemma FirstUsesSnoc(log: seq<(Key, Delta)>, key: Key, delta: Delta)
    ensures FirstUses(log + [(key, delta)]) ==
            if key in KeysOf(log) then FirstUses(log) else FirstUses(log) + [(key, delta)]
  {
    assert (log + [(key, delta)])[..|log|] == log;
  }

  lemma CommitSound(g: Graph, delta: Delta, key: Key)
    requires SoundDelta(delta) && DeltaValid(delta.operations)
    ensures Commit(g, delta, key) ==
            if key in g.keys then g else Graph(g.nodes, WithEdge(g.edges, delta), g.keys + {key})
  {
    PerformSound(g, delta);
  }

  lemma EdgesStayApproved(edges: map<string, Edge>, delta: Delta)
    requires SoundDelta(delta) && forall id :: id in edges ==> ApprovedEdge(edges[id])
    ensures forall id :: id in WithEdge(edges, delta) ==> ApprovedEdge(WithEdge(edges, delta)[id])
  {
  }

  lemma LogSnoc(w: World, key: Key, delta: Delta)
    requires Consistent(w) && SoundDelta(delta) && DeltaValid(delta.operations)
    ensures Consistent(World(w.service, Commit(w.graph, delta, key), w.log + [(key, delta)]))
  {
    CommitSound(w.graph, delta, key);
    KeysSnoc(w.log, key, delta);
    FirstUsesSnoc(w.log, key, delta);
    FoldSnoc(w.log, key, delta);
    if key in w.graph.keys {
      assert w.graph.keys + {key} == w.graph.keys;
    } else {
      FoldSnoc(FirstUses(w.log), key, delta);
      EdgesStayApproved(w.graph.edges, delta);
    }
  }

  lemma StepKeepsConsistent(w: World, event: Event)
    requires Consistent(w)
    ensures Consistent(Next(w, event))
  {
    match event
    case StageEvent(projectKey, runId, stepId, edges) =>
      StageAllKeepsSound(w.service, projectKey, runId, stepId, edges);
    case DecideEvent(d) =>
      DecideKeepsSound(w.service, d);
      var effect := Attempt(w.service, d);
      if effect.Commits? {
        EffectSound(w.service, d);
        SoundDeltaValid(effect.delta);
        LogSnoc(w, effect.key, effect.delta);
      }
  }

  ghost predicate Reaches(w: World, events: seq<Event>, t: World)
    requires Consistent(w)
    decreases |events|
  {
    if events == [] then w == t
    else
      StepKeepsConsistent(w, events[0]);
      Reaches(Next(w, events[0]), events[1..], t)
  }

  lemma {:induction false} RunKeepsConsistent(w: World, events: seq<Event>, t: World)
    requires Consistent(w) && Reaches(w, events, t)
    ensures Consistent(t)
    decreases |events|
  {
    if events != [] {
      StepKeepsConsistent(w, events[0]);
      RunKeepsConsistent(Next(w, events[0]), events[1..], t);
    }
  }

  ghost predicate Reachable(events: seq<Event>, t: World) {
    StartConsistent();
    Reaches(START, events, t)
  }

  lemma StartConsistent()
    ensures Consistent(START)
  {
    assert KeysOf([]) == {};
  }

  // ---- results over every run from empty ----

  /** The approved graph is the fold of the deltas committed at the first use of each key, and every edge in it is
      approved by someone, whatever corrections were sent. */
  lemma GraphIsFoldOfFirstCommits(events: seq<Event>, t: World)
    requires Reachable(events, t)
    ensures SoundLog(FirstUses(t.log)) && t.graph.edges == Fold(FirstUses(t.log))
    ensures t.graph.keys == KeysOf(t.log)
    ensures forall id :: id in t.graph.edges ==> ApprovedEdge(t.graph.edges[id])
  {
    StartConsistent();
    RunKeepsConsistent(START, events, t);
  }

  lemma PendingIffFirstVersion(events: seq<Event>, t: World, id: ApprovalId)
    requires Reachable(events, t) && id in t.service.items
    ensures t.service.items[id].status == Pending <==> t.service.items[id].version == 1
    ensures t.service.items[id].version == 1 || t.service.items[id].version == 2
    ensures t.service.items[id].deltaRef.Some? && t.service.items[id].deltaRef.value in t.service.deltas
  {
    StartConsistent();
    RunKeepsConsistent(START, events, t);
  }

  // ---- what each decision does ----

  /** The edge of the delta an item refers to. */
  function EdgeOf(s: Service, id: ApprovalId): Edge
    requires Sound(s) && id in s.items
  {
    s.deltas[s.items[id].deltaRef.value].operations[0].payload.edge
  }

  /** The decision was made for the version and the proposal the item still has. */
  predicate MadeFor(item: Item, d: Decision) {
    && (d.expectedVersion == None || d.expectedVersion == Some(item.version))
    && (d.expectedHash == None || d.expectedHash == Some(item.proposalHash))
  }

  ghost predicate GraphUntouched(w: World, t: World) {
    t.graph == w.graph && t.log == w.log
  }

  /** The edge is put into the graph, unless the key was used before. */
  ghost predicate PutsEdge(w: World, t: World, key: Key, e: Edge) {
    && t.graph.edges == (if key in w.graph.keys then w.graph.edges else w.graph.edges[e.edgeId := e])
    && t.graph.keys == w.graph.keys + {key} && t.graph.nodes == w.graph.nodes
  }

  /** The item is decided at its second version, and unless the reason code is unknown one feedback says what was decided. */
  ghost predicate Decides(w: World, t: World, d: Decision, status: ItemStatus, action: FeedbackAction) {
    && d.approvalId in w.service.items
    && var item := w.service.items[d.approvalId];
       && t.service.items == w.service.items[d.approvalId := item.(status := status, version := 2)]
       && t.service.feedback == w.service.feedback + if d.reason.Unknown? then [] else [Feedback(d, item.proposalRef, action)]
  }

  /** A decision made for another version or proposal only marks the item stale. */
  lemma StaleDecision(w: World, d: Decision)
    requires Consistent(w) && Effective(w.service, d) && !MadeFor(w.service.items[d.approvalId], d)
    ensures var t := Next(w, DecideEvent(d));
            && GraphUntouched(w, t) && t.service.feedback == w.service.feedback && t.service.deltas == w.service.deltas
            && t.service.items == w.service.items[d.approvalId := w.service.items[d.approvalId].(status := Stale, version := 2)]
            && DecideService(w.service, d).1 == Returned(t.service.items[d.approvalId])
  {
  }

  lemma MadeForIsCurrent(s: Service, d: Decision)
    requires Effective(s, d) && MadeFor(s.items[d.approvalId], d)
    ensures Current(s, d)
  {
  }

  /** Rejecting, holding, and modifying without a correction decide the item and leave the graph as it was. */
  lemma DecisionWithoutCommit(w: World, d: Decision)
    requires Consistent(w) && Effective(w.service, d) && MadeFor(w.service.items[d.approvalId], d)
    requires d.action == Reject || d.action == Hold || (d.action == Modify && !HasCorrection(d))
    ensures var t := Next(w, DecideEvent(d));
            && GraphUntouched(w, t) && t.service.deltas == w.service.deltas
            && (d.action == Reject ==> Decides(w, t, d, Rejected, FeedbackRejected))
            && (d.action == Hold ==> Decides(w, t, d, Held, FeedbackCommented))
            && (d.action == Modify ==> Decides(w, t, d, ModifiedApproved, FeedbackModified))
  {
    MadeForIsCurrent(w.service, d);
  }

  /** Approving puts the delta's edge into the graph. */
  lemma DecisionApproves(w: World, d: Decision)
    requires Consistent(w) && Effective(w.service, d) && MadeFor(w.service.items[d.approvalId], d) && d.action == Approve
    ensures var t := Next(w, DecideEvent(d));
            && PutsEdge(w, t, Key(d.approvalId, 1, false), EdgeOf(w.service, d.approvalId))
            && Decides(w, t, d, Approved, FeedbackApproved) && t.service.deltas == w.service.deltas
  {
    MadeForIsCurrent(w.service, d);
    EffectSound(w.service, d);
    CommitSound(w.graph, Attempt(w.service, d).delta, Attempt(w.service, d).key);
    assert {Attempt(w.service, d).key} <= w.graph.keys ==> w.graph.keys + {Attempt(w.service, d).key} == w.graph.keys;
  }

  /** The delta's edge with the overrides of a correction, approved by the decider at the time of the decision. */
  function CorrectedEdge(e: Edge, c: Correction, d: Decision): Edge {
    Edge(if c.edgeId.Some? then c.edgeId.value else e.edgeId, if c.source.Some? then c.source.value else e.source,
         if c.target.Some? then c.target.value else e.target, if c.body.Some? then c.body.value else e.body,
         EdgeApproved, Some(d.decidedBy), Some(d.decidedAt))
  }

  lemma CorrectionMakes(original: Delta, item: Item, d: Decision)
    requires SoundDelta(original) && d.correction.Some? && ModifiedDelta(original, item, d).Some?
    ensures SoundDelta(ModifiedDelta(original, item, d).value)
    ensures ModifiedDelta(original, item, d).value.operations[0].payload.edge ==
            CorrectedEdge(original.operations[0].payload.edge, d.correction.value, d)
  {
    ModifiedDeltaSound(original, item, d);
    assert original.operations[1..] == [];
    assert CorrectedOperations([], d) == Some([]);
  }

  /** A correction that is not refused puts the corrected edge into the graph. */
  lemma DecisionCorrects(w: World, d: Decision)
    requires Consistent(w) && Effective(w.service, d) && MadeFor(w.service.items[d.approvalId], d)
    requires d.action == Modify && HasCorrection(d) && d.decidedBy != "" && !d.correction.value.malformed
    ensures var t := Next(w, DecideEvent(d));
            && PutsEdge(w, t, Key(d.approvalId, 1, true), CorrectedEdge(EdgeOf(w.service, d.approvalId), d.correction.value, d))
            && Decides(w, t, d, ModifiedApproved, FeedbackModified)
  {
    MadeForIsCurrent(w.service, d);
    FailsIff(w.service, d);
    var item := w.service.items[d.approvalId];
    CorrectionMakes(w.service.deltas[item.deltaRef.value], item, d);
    EffectSound(w.service, d);
    CommitSound(w.graph, Attempt(w.service, d).delta, Attempt(w.service, d).key);
    assert {Attempt(w.service, d).key} <= w.graph.keys ==> w.graph.keys + {Attempt(w.service, d).key} == w.graph.keys;
  }

  /** Deciding a decided item changes nothing anywhere. */
  lemma DecidedStaysDecided(w: World, d: Decision)
    requires Consistent(w) && d.approvalId in w.service.items && w.service.items[d.approvalId].status != Pending
    ensures Next(w, DecideEvent(d)) == w
    ensures DecideService(w.service, d).1 == Returned(w.service.items[d.approvalId])
  {
  }

  /** Feedback grows by one exactly when the decision meets a pending item, is not stale, is not refused for its
      correction, and carries no unknown reason code. */
  lemma FeedbackGrowth(w: World, d: Decision)
    requires Consistent(w)
    ensures |Next(w, DecideEvent(d)).service.feedback| ==
            |w.service.feedback| + if Current(w.service, d) && !Attempt(w.service, d).Fails? && !d.reason.Unknown? then 1 else 0
  {
  }

  /** The correction is one that is refused. */
  predicate RefusedCorrection(d: Decision) {
    d.action == Modify && HasCorrection(d) && (d.decidedBy == "" || d.correction.value.malformed)
  }

  lemma FailsIff(s: Service, d: Decision)
    requires Sound(s) && Current(s, d)
    ensures Attempt(s, d).Fails? <==> RefusedCorrection(d)
  {
    var item := s.items[d.approvalId];
    ModifiedDeltaSound(s.deltas[item.deltaRef.value], item, d);
  }

  /** A decision raises and yet changes something exactly when it meets a pending item, is not stale, its reason code is unknown
      and its correction, if any, is not refused: the code is looked at too late. */
  lemma RaisesAndChangesIff(w: World, d: Decision)
    requires Consistent(w)
    ensures DecideService(w.service, d).1.Raised? && Next(w, DecideEvent(d)) != w <==>
            Current(w.service, d) && d.reason.Unknown? && !RefusedCorrection(d)
  {
    if Current(w.service, d) {
      FailsIff(w.service, d);
      assert !Attempt(w.service, d).Fails? ==> Next(w, DecideEvent(d)).service.items[d.approvalId] != w.service.items[d.approvalId];
    }
  }

  /** Then the item is decided, a commit it asks for is made, and there is no feedback. */
  lemma UnknownReasonRaisesAfterCommit(w: World, d: Decision)
    requires Consistent(w) && DecideService(w.service, d).1.Raised? && Next(w, DecideEvent(d)) != w
    ensures var t := Next(w, DecideEvent(d));
            && DecideService(w.service, d).1 == Raised(InvalidReason)
            && t.service.items[d.approvalId].status != Pending
            && (Attempt(w.service, d).Commits? ==> Attempt(w.service, d).key in t.graph.keys)
            && t.service.feedback == w.service.feedback
  {
    RaisesAndChangesIff(w, d);
    if Attempt(w.service, d).Commits? {
      EffectSound(w.service, d);
      CommitSound(w.graph, Attempt(w.service, d).delta, Attempt(w.service, d).key);
    }
  }

  /** A correction is refused exactly when the decider is nameless or some override is malformed; then nothing changes. */
  lemma CorrectionRefused(w: World, d: Decision)
    requires Consistent(w) && Current(w.service, d) && d.action == Modify && HasCorrection(d)
    ensures Attempt(w.service, d).Fails? <==> d.decidedBy == "" || d.correction.value.malformed
    ensures Attempt(w.service, d).Fails? ==> Next(w, DecideEvent(d)) == w
  {
    var item := w.service.items[d.approvalId];
    ModifiedDeltaSound(w.service.deltas[item.deltaRef.value], item, d);
  }

  /** After an approval or a correction the graph holds the delta's edge exactly when the key was fresh or the edge was there already:
      an item that was staged again after its decision is decided again, but under the same key, so its commit is lost. */
  lemma CommitShowsInGraph(w: World, d: Decision)
    requires Consistent(w) && Attempt(w.service, d).Commits?
    ensures var delta := Attempt(w.service, d).delta;
            |delta.operations| == 1 && delta.operations[0].payload.EdgePayload? &&
            var e := delta.operations[0].payload.edge;
            var t := Next(w, DecideEvent(d));
            (e.edgeId in t.graph.edges && t.graph.edges[e.edgeId] == e) <==>
            (Attempt(w.service, d).key !in w.graph.keys || (e.edgeId in w.graph.edges && w.graph.edges[e.edgeId] == e))
  {
    EffectSound(w.service, d);
    CommitSound(w.graph, Attempt(w.service, d).delta, Attempt(w.service, d).key);
  }

  // ---- delta references ----

  const SUFFIX := "_modified_v1"

  ghost predicate OnTarget(s: Service, id: ApprovalId)
    requires id in s.items
  {
    var item := s.items[id];
    && item.deltaRef.Some? && item.deltaRef.value in s.deltas
    && |s.deltas[item.deltaRef.value].operations| == 1
    && var op := s.deltas[item.deltaRef.value].operations[0];
       op.kind == CreateEdge && op.targetId == item.proposalRef
  }

  /** Every item's delta reference resolves to a delta whose one operation creates its proposal. */
  ghost predicate AllOnTarget(s: Service) {
    forall id :: id in s.items ==> OnTarget(s, id)
  }

  /** Every item names the delta it was staged with, and every delta is filed under its own id. */
  ghost predicate Referenced(s: Service) {
    && Sound(s)
    && (forall id :: id in s.items ==> s.items[id].deltaRef == Some("delta_" + s.items[id].proposalRef))
    && forall id :: id in s.deltas ==> s.deltas[id].deltaId == id
  }

  lemma ItemsKeepTargets(s: Service, d: Decision, id: ApprovalId)
    requires id in s.items
    ensures id in DecideService(s, d).0.items
    ensures DecideService(s, d).0.items[id].proposalRef == s.items[id].proposalRef
    ensures DecideService(s, d).0.items[id].deltaRef == s.items[id].deltaRef
  {
  }

  lemma DecideDeltas(s: Service, d: Decision)
    ensures DecideService(s, d).0.deltas == DeltasAfter(s.deltas, Attempt(s, d))
    ensures DecideService(s, d).0.items.Keys == s.items.Keys
  {
  }

  lemma SuffixedId(a: string)
    ensures ("delta_" + a) + "_modified_v" + Decimal(1) == "delta_" + (a + SUFFIX)
    ensures a + SUFFIX != a
  {
    assert Decimal(1) == "1";
    assert ("delta_" + a) + "_modified_v" + "1" == "delta_" + (a + "_modified_v1");
    assert |a + SUFFIX| == |a| + 12;
  }

  lemma SamePrefix(a: string, b: string)
    ensures "delta_" + a == "delta_" + b <==> a == b
  {
    assert ("delta_" + a)[6..] == a && ("delta_" + b)[6..] == b;
  }

  /** An accepted correction files a delta for the corrected proposal under its reference with the suffix. */
  lemma CorrectedDelta(s: Service, d: Decision)
    requires Referenced(s) && Attempt(s, d).Commits? && Attempt(s, d).key.corrected && OnTarget(s, d.approvalId)
    ensures var delta, ref := Attempt(s, d).delta, s.items[d.approvalId].proposalRef;
            && delta.deltaId == "delta_" + (ref + SUFFIX) && SoundDelta(delta) && delta.operations[0].targetId == ref
  {
    var item := s.items[d.approvalId];
    ModifiedDeltaSound(s.deltas[item.deltaRef.value], item, d);
    SuffixedId(item.proposalRef);
  }

  lemma DecideKeepsReferenced(s: Service, d: Decision)
    requires Referenced(s)
    ensures Referenced(DecideService(s, d).0)
  {
    DecideKeepsSound(s, d);
    DecideDeltas(s, d);
    var t := DecideService(s, d).0;
    forall id | id in t.items ensures t.items[id].deltaRef == Some("delta_" + t.items[id].proposalRef) {
      ItemsKeepTargets(s, d, id);
    }
  }

  lemma TargetAfter(s: Service, d: Decision, id: ApprovalId)
    requires Referenced(s) && AllOnTarget(s) && Attempt(s, d).Commits? && Attempt(s, d).key.corrected && id in s.items
    ensures id in DecideService(s, d).0.items
    ensures OnTarget(DecideService(s, d).0, id) <==> s.items[id].proposalRef != s.items[d.approvalId].proposalRef + SUFFIX
  {
    var ref := s.items[d.approvalId].proposalRef;
    assert OnTarget(s, d.approvalId) && OnTarget(s, id);
    CorrectedDelta(s, d);
    DecideDeltas(s, d);
    ItemsKeepTargets(s, d, id);
    SuffixedId(ref);
    SamePrefix(s.items[id].proposalRef, ref + SUFFIX);
  }

  /** An accepted correction keeps all references on target exactly when no item's proposal has the corrected one's id with the suffix. */
  lemma CorrectionKeepsTargetsIff(s: Service, d: Decision)
    requires Referenced(s) && AllOnTarget(s) && Attempt(s, d).Commits? && Attempt(s, d).key.corrected
    ensures AllOnTarget(DecideService(s, d).0) <==>
            forall id :: id in s.items ==> s.items[id].proposalRef != s.items[d.approvalId].proposalRef + SUFFIX
  {
    DecideDeltas(s, d);
    forall id | id in s.items
      ensures OnTarget(DecideService(s, d).0, id) <==> s.items[id].proposalRef != s.items[d.approvalId].proposalRef + SUFFIX
    {
      TargetAfter(s, d, id);
    }
  }

  predicate EventOver(event: Event, ids: set<string>) {
    event.StageEvent? ==> forall i :: 0 <= i < |event.edges| ==> event.edges[i].edgeId in ids
  }

  predicate EventsOver(events: seq<Event>, ids: set<string>) {
    forall i :: 0 <= i < |events| ==> EventOver(events[i], ids)
  }

  /** One edge id is another with the suffix. */
  predicate Collide(ids: set<string>) {
    exists a, b :: a in ids && b in ids && b == a + SUFFIX
  }

  /** All items are about these edges, and every delta is a staged or a corrected one of its own target. */
  ghost predicate Over(s: Service, ids: set<string>) {
    && Referenced(s)
    && (forall id :: id in s.items ==> s.items[id].proposalRef in ids)
    && forall id :: id in s.deltas ==>
         var target := s.deltas[id].operations[0].targetId;
         target in ids && (id == "delta_" + target || id == "delta_" + (target + SUFFIX))
  }

  lemma OnTargetOrCollide(s: Service, ids: set<string>, id: ApprovalId)
    requires Over(s, ids) && id in s.items
    ensures OnTarget(s, id) || Collide(ids)
  {
    var ref := s.items[id].proposalRef;
    var target := s.deltas["delta_" + ref].operations[0].targetId;
    SamePrefix(ref, target);
    SamePrefix(ref, target + SUFFIX);
    assert ref == target || ref == target + SUFFIX;
  }

  lemma StageOneKeepsOver(s: Service, ids: set<string>, projectKey: string, runId: string, stepId: string, e: Edge)
    requires Over(s, ids) && e.edgeId in ids
    ensures Over(StageOne(s, projectKey, runId, stepId, e), ids)
  {
    StageKeepsSound(s, projectKey, runId, stepId, e);
  }

  lemma {:induction false} StageKeepsOver(s: Service, ids: set<string>, projectKey: string, runId: string, stepId: string, edges: seq<Edge>)
    requires Over(s, ids) && forall i :: 0 <= i < |edges| ==> edges[i].edgeId in ids
    ensures Over(StageAll(s, projectKey, runId, stepId, edges), ids)
  {
    if edges != [] {
      var init := edges[..|edges| - 1];
      StageKeepsOver(s, ids, projectKey, runId, stepId, init);
      StageOneKeepsOver(StageAll(s, projectKey, runId, stepId, init), ids, projectKey, runId, stepId, edges[|edges| - 1]);
    }
  }

  lemma DecideKeepsOver(s: Service, ids: set<string>, d: Decision)
    requires Over(s, ids) && !Collide(ids)
    ensures Over(DecideService(s, d).0, ids)
  {
    DecideKeepsReferenced(s, d);
    DecideDeltas(s, d);
    var t := DecideService(s, d).0;
    forall id | id in t.items ensures t.items[id].proposalRef in ids {
      ItemsKeepTargets(s, d, id);
    }
    if Attempt(s, d).Commits? && Attempt(s, d).key.corrected {
      OnTargetOrCollide(s, ids, d.approvalId);
      CorrectedDelta(s, d);
    }
  }

  lemma {:induction false} RunKeepsOver(w: World, events: seq<Event>, t: World, ids: set<string>)
    requires Consistent(w) && Over(w.service, ids) && Reaches(w, events, t)
    requires EventsOver(events, ids) && !Collide(ids)
    ensures Over(t.service, ids)
    decreases |events|
  {
    if events != [] {
      StepKeepsConsistent(w, events[0]);
      match events[0] {
        case StageEvent(projectKey, runId, stepId, edges) => StageKeepsOver(w.service, ids, projectKey, runId, stepId, edges);
        case DecideEvent(d) => DecideKeepsOver(w.service, ids, d);
      }
      RunKeepsOver(Next(w, events[0]), events[1..], t, ids);
    }
  }

  lemma RunOnTarget(events: seq<Event>, t: World, ids: set<string>)
    requires Reachable(events, t) && EventsOver(events, ids) && !Collide(ids)
    ensures AllOnTarget(t.service)
  {
    StartConsistent();
    RunKeepsOver(START, events, t, ids);
    forall id | id in t.service.items ensures OnTarget(t.service, id) {
      OnTargetOrCollide(t.service, ids, id);
    }
  }

  function PlainEdge(id: string): Edge {
    Edge(id, "", "", "", EdgePending, None, None)
  }

  /** Stage both edges, then correct the first. */
  function CollidingRun(a: string, b: string): seq<Event> {
    [StageEvent("", "", "", [PlainEdge(a), PlainEdge(b)]), DecideEvent(Correcting(a))]
  }

  function Correcting(a: string): Decision {
    Decision(ApprovalId(PlainEdge(a)), Modify, "reviewer", None, None, 0, Some(NO_OVERRIDES.(body := Some("corrected"))), NoReason)
  }

  function BothStaged(a: string, b: string): Service {
    StageAll(EMPTY_SERVICE, "", "", "", [PlainEdge(a), PlainEdge(b)])
  }

  lemma BothStagedInTurn(a: string, b: string)
    ensures BothStaged(a, b) == StageOne(StageOne(EMPTY_SERVICE, "", "", "", PlainEdge(a)), "", "", "", PlainEdge(b))
  {
    var both := [PlainEdge(a), PlainEdge(b)];
    assert both[..1] == [PlainEdge(a)] && [PlainEdge(a)][..0] == [];
    assert StageAll(EMPTY_SERVICE, "", "", "", []) == EMPTY_SERVICE;
    assert StageAll(EMPTY_SERVICE, "", "", "", [PlainEdge(a)]) == StageOne(EMPTY_SERVICE, "", "", "", PlainEdge(a));
  }

  /** Staging keeps all references on target: it files the edge's own delta under its reference. */
  lemma StageOneKeepsTargets(s: Service, projectKey: string, runId: string, stepId: string, e: Edge)
    requires Referenced(s) && AllOnTarget(s)
    ensures Referenced(StageOne(s, projectKey, runId, stepId, e)) && AllOnTarget(StageOne(s, projectKey, runId, stepId, e))
  {
    StageKeepsSound(s, projectKey, runId, stepId, e);
    var t := StageOne(s, projectKey, runId, stepId, e);
    forall id | id in t.items ensures OnTarget(t, id) {
      assert id != ApprovalId(e) ==> OnTarget(s, id);
      SamePrefix(t.items[id].proposalRef, e.edgeId);
    }
  }

  lemma BothStagedOnTarget(a: string, b: string)
    requires a != b
    ensures var s := BothStaged(a, b);
            && Referenced(s) && AllOnTarget(s)
            && ApprovalId(PlainEdge(a)) in s.items && ApprovalId(PlainEdge(b)) in s.items
            && s.items[ApprovalId(PlainEdge(a))] == StagedItem("", "", "", PlainEdge(a))
            && s.items[ApprovalId(PlainEdge(b))] == StagedItem("", "", "", PlainEdge(b))
  {
    BothStagedInTurn(a, b);
    StageOneKeepsTargets(EMPTY_SERVICE, "", "", "", PlainEdge(a));
    StageOneKeepsTargets(StageOne(EMPTY_SERVICE, "", "", "", PlainEdge(a)), "", "", "", PlainEdge(b));
  }

  lemma CorrectingCommits(a: string, b: string)
    requires a != b
    ensures Attempt(BothStaged(a, b), Correcting(a)).Commits? && Attempt(BothStaged(a, b), Correcting(a)).key.corrected
  {
    BothStagedOnTarget(a, b);
    FailsIff(BothStaged(a, b), Correcting(a));
  }

  lemma TwoSteps(first: Event, second: Event, t: World)
    ensures Consistent(START) && Consistent(Next(START, first))
    ensures Reachable([first, second], t) <==> t == Next(Next(START, first), second)
  {
    StartConsistent();
    StepKeepsConsistent(START, first);
    StepKeepsConsistent(Next(START, first), second);
    assert [first, second][1..] == [second] && [second][1..] == [];
    assert Reaches(Next(Next(START, first), second), [], t) <==> t == Next(Next(START, first), second);
    assert Reaches(Next(START, first), [second], t) <==> t == Next(Next(START, first), second);
  }

  lemma CollidingRunEnds(a: string, b: string, t: World)
    ensures Consistent(START) && Consistent(Next(START, CollidingRun(a, b)[0]))
    ensures Reachable(CollidingRun(a, b), t) <==> t == Next(Next(START, CollidingRun(a, b)[0]), CollidingRun(a, b)[1])
    ensures Reachable(CollidingRun(a, b), t) ==> t.service == DecideService(BothStaged(a, b), Correcting(a)).0
  {
    TwoSteps(CollidingRun(a, b)[0], CollidingRun(a, b)[1], t);
  }

  /** Correcting the shorter one replaces the staged delta of the longer one. */
  lemma CollidingIdsMisdirect(a: string, b: string, t: World)
    requires b == a + SUFFIX && Reachable(CollidingRun(a, b), t)
    ensures ApprovalId(PlainEdge(b)) in t.service.items && !OnTarget(t.service, ApprovalId(PlainEdge(b)))
  {
    SuffixedId(a);
    BothStagedOnTarget(a, b);
    CorrectingCommits(a, b);
    TargetAfter(BothStaged(a, b), Correcting(a), ApprovalId(PlainEdge(b)));
    CollidingRunEnds(a, b, t);
  }

  lemma CollidingRunMisses(a: string, b: string)
    requires b == a + SUFFIX
    ensures exists t :: Reachable(CollidingRun(a, b), t) && !AllOnTarget(t.service)
  {
    CollidingRunEnds(a, b, START);
    var t := Next(Next(START, CollidingRun(a, b)[0]), CollidingRun(a, b)[1]);
    CollidingRunEnds(a, b, t);
    CollidingIdsMisdirect(a, b, t);
  }

  /** Every run over a set of edge ids keeps all references on target if and only if no id of the set is another with the suffix. */
  lemma RunsOnTargetIff(ids: set<string>)
    ensures (forall events, t :: EventsOver(events, ids) && Reachable(events, t) ==> AllOnTarget(t.service)) <==> !Collide(ids)
  {
    if a, b :| a in ids && b in ids && b == a + SUFFIX {
      CollidingRunMisses(a, b);
      assert EventsOver(CollidingRun(a, b), ids);
    } else {
      forall events, t | EventsOver(events, ids) && Reachable(events, t) ensures AllOnTarget(t.service) {
        RunOnTarget(events, t, ids);
      }
    }
  }

  // ---- what an approval commits ----

  /** The last edge staged under each id. */
  function StagedBy(last: map<string, Edge>, edges: seq<Edge>): map<string, Edge> {
    if edges == [] then last else StagedBy(last, edges[..|edges| - 1])[edges[|edges| - 1].edgeId := edges[|edges| - 1]]
  }

  function LastStaged(last: map<string, Edge>, events: seq<Event>): map<string, Edge>
    decreases |events|
  {
    if events == [] then last
    else LastStaged(if events[0].StageEvent? then StagedBy(last, events[0].edges) else last, events[1..])
  }

  /** Each item's delta holds the last edge staged under its id, approved by the system. */
  ghost predicate HoldsLast(s: Service, last: map<string, Edge>, ids: set<string>) {
    && Over(s, ids) && last.Keys <= ids
    && (forall id :: id in s.items ==> s.items[id].proposalRef == id.proposal.edgeId && s.items[id].proposalRef in last)
    && forall id :: id in last ==>
         && "delta_" + id in s.deltas && last[id].edgeId == id
         && s.deltas["delta_" + id].operations[0].payload.edge == last[id].(status := EdgeApproved, approvedBy := Some("system"))
  }

  lemma StageOneHoldsLast(s: Service, last: map<string, Edge>, ids: set<string>, projectKey: string, runId: string, stepId: string, e: Edge)
    requires HoldsLast(s, last, ids) && e.edgeId in ids
    ensures HoldsLast(StageOne(s, projectKey, runId, stepId, e), last[e.edgeId := e], ids)
  {
    StageOneKeepsOver(s, ids, projectKey, runId, stepId, e);
    forall id ensures "delta_" + id == "delta_" + e.edgeId <==> id == e.edgeId { SamePrefix(id, e.edgeId); }
  }

  lemma {:induction false} StageHoldsLast(s: Service, last: map<string, Edge>, ids: set<string>, projectKey: string, runId: string,
                                          stepId: string, edges: seq<Edge>)
    requires HoldsLast(s, last, ids) && forall i :: 0 <= i < |edges| ==> edges[i].edgeId in ids
    ensures HoldsLast(StageAll(s, projectKey, runId, stepId, edges), StagedBy(last, edges), ids)
  {
    if edges != [] {
      var init := edges[..|edges| - 1];
      StageHoldsLast(s, last, ids, projectKey, runId, stepId, init);
      StageOneHoldsLast(StageAll(s, projectKey, runId, stepId, init), StagedBy(last, init), ids, projectKey, runId, stepId, edges[|edges| - 1]);
    }
  }

  lemma DecideHoldsLast(s: Service, last: map<string, Edge>, ids: set<string>, d: Decision)
    requires HoldsLast(s, last, ids) && !Collide(ids)
    ensures HoldsLast(DecideService(s, d).0, last, ids)
  {
    DecideKeepsOver(s, ids, d);
    DecideDeltas(s, d);
    var t := DecideService(s, d).0;
    forall id | id in t.items ensures t.items[id].proposalRef == id.proposal.edgeId && t.items[id].proposalRef in last {
      ItemsKeepTargets(s, d, id);
    }
    if Attempt(s, d).Commits? && Attempt(s, d).key.corrected {
      OnTargetOrCollide(s, ids, d.approvalId);
      CorrectedDelta(s, d);
      var ref := s.items[d.approvalId].proposalRef;
      forall id | id in last ensures "delta_" + id != Attempt(s, d).delta.deltaId {
        SamePrefix(id, ref + SUFFIX);
      }
    }
  }

  lemma {:induction false} RunHoldsLast(w: World, events: seq<Event>, t: World, ids: set<string>, last: map<string, Edge>)
    requires Consistent(w) && HoldsLast(w.service, last, ids) && Reaches(w, events, t)
    requires EventsOver(events, ids) && !Collide(ids)
    ensures Consistent(t) && HoldsLast(t.service, LastStaged(last, events), ids)
    decreases |events|
  {
    if events != [] {
      StepKeepsConsistent(w, events[0]);
      match events[0] {
        case StageEvent(projectKey, runId, stepId, edges) =>
          StageHoldsLast(w.service, last, ids, projectKey, runId, stepId, edges);
          RunHoldsLast(Next(w, events[0]), events[1..], t, ids, StagedBy(last, edges));
        case DecideEvent(d) =>
          DecideHoldsLast(w.service, last, ids, d);
          RunHoldsLast(Next(w, events[0]), events[1..], t, ids, last);
      }
    }
  }

  /** Along every run over ids that do not collide, approving an item under a fresh key puts into the graph the edge last staged under
      its id, approved by the system. If two edges were staged under one id, that may not be the edge the item was made for. */
  lemma ApprovalCommitsLastStaged(events: seq<Event>, t: World, ids: set<string>, d: Decision)
    requires Reachable(events, t) && EventsOver(events, ids) && !Collide(ids)
    requires Consistent(t) && Effective(t.service, d) && MadeFor(t.service.items[d.approvalId], d) && d.action == Approve
    requires Key(d.approvalId, 1, false) !in t.graph.keys
    ensures var id, last := d.approvalId.proposal.edgeId, LastStaged(map[], events);
            && id in last
            && Next(t, DecideEvent(d)).graph.edges ==
               t.graph.edges[id := last[id].(status := EdgeApproved, approvedBy := Some("system"))]
  {
    StartConsistent();
    RunHoldsLast(START, events, t, ids, map[]);
    DecisionApproves(t, d);
  }

  /** Ids as the id factory makes them: `edge_` and sixteen digits of a hash. */
  predicate FactoryId(id: string) { |id| == 21 }

  /** With factory ids every run is on target. */
  lemma DeltaRefTargetsProposal(events: seq<Event>, t: World, ids: set<string>)
    requires Reachable(events, t) && EventsOver(events, ids)
    requires forall id :: id in ids ==> FactoryId(id)
    ensures AllOnTarget(t.service)
  {
    RunsOnTargetIff(ids);
    assert forall a :: FactoryId(a) ==> !FactoryId(a + SUFFIX);
  }
}
