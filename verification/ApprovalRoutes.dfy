/** The decision endpoint: one idempotent command over the approval service, the graph, the audit trail and the record of
    earlier requests. */
module ApprovalRoutes {
  import opened Approvals
  import opened Idempotency
  import opened Text

  /** The fields of a decision as the caller supplied them. */
  datatype Body = Body(approvalId: ApprovalId, action: Action, decidedBy: string, expectedVersion: Option<nat>,
                       expectedHash: Option<Approvals.Edge>, decidedAt: Option<nat>, correction: Option<Correction>, reason: Reason)

  /** The path, the decision with its time filled in, and whether the caller may operate on the item's project. */
  datatype Input = Input(pathId: ApprovalId, body: Body, now: nat, authorized: bool)

  datatype AuditEntry = AuditEntry(approvalId: ApprovalId, decidedBy: string, blocked: bool, result: ItemStatus)

  datatype State = State(service: Service, graph: Graph, audit: seq<AuditEntry>)

  const COMMAND := "approvals.decision"

  function DecisionOf(input: Input): Decision {
    var b := input.body;
    Decision(b.approvalId, b.action, b.decidedBy, b.expectedVersion, b.expectedHash,
             if b.decidedAt.Some? then b.decidedAt.value else input.now, b.correction, b.reason)
  }

  predicate Admits(state: State, input: Input) {
    input.body.approvalId == input.pathId && input.pathId in state.service.items && input.authorized
  }

  function Audited(d: Decision, item: Item): AuditEntry {
    AuditEntry(d.approvalId, d.decidedBy, item.status == Stale, item.status)
  }

  /** The audit entry follows a decision that returned; one that raised leaves none. */
  ghost function Run(state: State, input: Input): (State, Option<Item>) {
    var d := DecisionOf(input);
    var (service, outcome) := DecideService(state.service, d);
    var graph := if Sound(state.service) then CommitEffect(state.graph, state.service, d) else state.graph;
    if outcome.Raised? then (State(service, graph, state.audit), None)
    else (State(service, graph, state.audit + [Audited(d, outcome.item)]), Some(outcome.item))
  }

  ghost function DecisionApi(): Api<State, Input, Item> {
    (command: string) => Handler((state: State, input: Input) => Admits(state, input), (state: State, input: Input) => Run(state, input))
  }

  /** The decision is the caller's, made now if the caller gives no time; its audit entry names the decider, the outcome, and whether the
      decision came too late. */
  lemma DecisionMade(input: Input, item: Item)
    ensures var d := DecisionOf(input);
            && d.approvalId == input.body.approvalId && d.action == input.body.action && d.decidedBy == input.body.decidedBy
            && d.expectedVersion == input.body.expectedVersion && d.expectedHash == input.body.expectedHash
            && d.correction == input.body.correction && d.reason == input.body.reason
            && (input.body.decidedAt == None ==> d.decidedAt == input.now)
            && (input.body.decidedAt.Some? ==> input.body.decidedAt == Some(d.decidedAt))
            && Audited(d, item).approvalId == d.approvalId && Audited(d, item).decidedBy == d.decidedBy
            && Audited(d, item).result == item.status && (Audited(d, item).blocked <==> item.status == Stale)
  {
  }

  /** How the decision command is served, case by case. */
  lemma ServedDecision(w: Idempotency.World<State, Body, Item>, request: Request<Input, Body>)
    requires request.command == COMMAND
    ensures var served := Serve(DecisionApi(), w, request);
            var prepared := Prepare(w.results, request);
            var (after, response) := Run(w.state, request.input);
            if !Admits(w.state, request.input) then served == (w, Refused)
            else if prepared.Reused? then served == (w, Conflict)
            else if prepared.context.cached.Some? then served == (w, Done(prepared.context.cached.value))
            else if response.None? then served == (Idempotency.World(after, w.results), Failed)
            else served == (Idempotency.World(after, File(w.results, COMMAND, prepared.context, response.value)), Done(response.value))
  {
  }

  class Endpoint {
    const approvals: ApprovalService
    const graph: MemoryGraphBackend
    var audit: seq<AuditEntry>
    var results: map<string, Record<Body, Item>>

    constructor (approvals: ApprovalService, graph: MemoryGraphBackend)
      ensures this.approvals == approvals && this.graph == graph && audit == [] && results == map[]
    {
      this.approvals, this.graph := approvals, graph;
      audit, results := [], map[];
    }

    ghost function Value(): Idempotency.World<State, Body, Item>
      reads this, approvals, graph
    {
      Idempotency.World(State(approvals.Value(), graph.Value(), audit), results)
    }

    method Carry(d: Decision) returns (decided: Approvals.Outcome)
      requires approvals.Valid()
      modifies this, approvals, graph
      ensures approvals.Valid() && results == old(results)
      ensures (approvals.Value(), decided) == DecideService(old(approvals.Value()), d)
      ensures graph.Value() == CommitEffect(old(graph.Value()), old(approvals.Value()), d)
      ensures audit == if decided.Raised? then old(audit) else old(audit) + [Audited(d, decided.item)]
    {
      decided := approvals.Decide(d, graph);
      if decided.Returned? {
        audit := audit + [Audited(d, decided.item)];
      }
    }

    method PrepareIdempotency(request: Request<Input, Body>) returns (prepared: Prepared<Body, Item>)
      requires request.command == COMMAND
      ensures prepared == Prepare(results, request)
    {
      var key := IdempotencyKey(request.headers);
      if key.None? {
        return Proceed(Context(None, request.payload, None));
      }
      var id := RecordId(COMMAND, key.value);
      if id !in results {
        return Proceed(Context(key, request.payload, None));
      }
      if results[id].requestHash != request.payload {
        return Reused(key.value);
      }
      return Proceed(Context(key, request.payload, Some(results[id].response)));
    }

    method RecordResponse(context: Context<Body, Item>, item: Item)
      modifies this`results
      ensures results == File(old(results), COMMAND, context, item)
    {
      if context.key.Some? {
        results := results[RecordId(COMMAND, context.key.value) := Record(COMMAND, context.key.value, context.requestHash, item)];
      }
    }

    method DecideApproval(request: Request<Input, Body>) returns (outcome: Idempotency.Outcome<Item>)
      requires approvals.Valid() && request.command == COMMAND
      modifies this, approvals, graph
      ensures approvals.Valid()
      ensures (Value(), outcome) == Serve(DecisionApi(), old(Value()), request)
    {
      ServedDecision(Value(), request);
      var input := request.input;
      if input.body.approvalId != input.pathId || input.pathId !in approvals.items || !input.authorized {
        return Refused;
      }
      var prepared := PrepareIdempotency(request);
      if prepared.Reused? {
        return Conflict;
      }
      if prepared.context.cached.Some? {
        return Done(prepared.context.cached.value);
      }
      var decided := Carry(DecisionOf(input));
      if decided.Raised? {
        return Failed;
      }
      RecordResponse(prepared.context, decided.item);
      outcome := Done(decided.item);
    }
  }

  // ---- retries ----

  /** The decision command among others. */
  ghost predicate ServesDecisions(api: Api<State, Input, Item>) {
    api(COMMAND) == DecisionApi()(COMMAND)
  }

  /** No command takes an approval item away: staging and deciding only add or replace items. */
  ghost predicate ItemsKept(api: Api<State, Input, Item>) {
    forall command, state: State, input: Input :: state.service.items.Keys <= api(command).run(state, input).0.service.items.Keys
  }

  lemma {:induction false} StagingKeepsItems(s: Service, projectKey: string, runId: string, stepId: string, edges: seq<Approvals.Edge>)
    ensures s.items.Keys <= StageAll(s, projectKey, runId, stepId, edges).items.Keys
  {
    if edges != [] {
      StagingKeepsItems(s, projectKey, runId, stepId, edges[..|edges| - 1]);
    }
  }

  lemma DecisionsKeepItems()
    ensures ItemsKept(DecisionApi())
  {
    forall command, state: State, input: Input
      ensures state.service.items.Keys <= DecisionApi()(command).run(state, input).0.service.items.Keys
    {
      DecideDeltas(state.service, DecisionOf(input));
    }
  }

  lemma ItemsStay(api: Api<State, Input, Item>, w: Idempotency.World<State, Body, Item>, request: Request<Input, Body>)
    requires ItemsKept(api)
    ensures w.state.service.items.Keys <= Serve(api, w, request).0.state.service.items.Keys
  {
  }

  lemma {:induction false} AllItemsStay(api: Api<State, Input, Item>, w: Idempotency.World<State, Body, Item>, requests: seq<Request<Input, Body>>)
    requires ItemsKept(api)
    ensures w.state.service.items.Keys <= ServeAll(api, w, requests).state.service.items.Keys
    decreases |requests|
  {
    if requests != [] {
      ItemsStay(api, w, requests[0]);
      AllItemsStay(api, Serve(api, w, requests[0]).0, requests[1..]);
    }
  }

  lemma CommandHasNoColon()
    ensures COMMAND == CommandName(ApprovalsDecision) && ColonFree(COMMAND)
  {
  }

  lemma AdmissionChecks(api: Api<State, Input, Item>, state: State, input: Input)
    requires ServesDecisions(api)
    ensures api(COMMAND).admits(state, input) == Admits(state, input)
  {
  }

  lemma RetryAdmitted(api: Api<State, Input, Item>, w: Idempotency.World<State, Body, Item>, first: Request<Input, Body>,
                      between: seq<Request<Input, Body>>, retry: Input)
    requires ServesDecisions(api) && ItemsKept(api) && first.command == COMMAND && TakesEffect(api, w, first)
    requires retry.body == first.input.body && retry.pathId == first.input.pathId && retry.authorized
    ensures Admits(ServeAll(api, Serve(api, w, first).0, between).state, retry)
  {
    AdmissionChecks(api, w.state, first.input);
    ItemsStay(api, w, first);
    AllItemsStay(api, Serve(api, w, first).0, between);
  }

  /** A decision that returned, sent again under its key after any other commands, staging the same edges again among them: the
      same item comes back, and the approvals, the deltas, the feedback, the graph and the audit trail are as they were. */
  lemma DecisionRetry(api: Api<State, Input, Item>, w: Idempotency.World<State, Body, Item>, first: Request<Input, Body>,
                      between: seq<Request<Input, Body>>, retry: Request<Input, Body>)
    requires ServesDecisions(api) && ItemsKept(api)
    requires first.command == retry.command == COMMAND && Commands(between)
    requires TakesEffect(api, w, first) && IdempotencyKey(first.headers).Some?
    requires IdempotencyKey(retry.headers) == IdempotencyKey(first.headers) && retry.payload == first.payload
    requires retry.input.body == first.input.body && retry.input.pathId == first.input.pathId && retry.input.authorized
    ensures var (start, done) := Serve(api, w, first);
            var later := ServeAll(api, start, between);
            Serve(api, later, retry) == (later, done)
  {
    var later := ServeAll(api, Serve(api, w, first).0, between);
    RetryAdmitted(api, w, first, between, retry.input);
    AdmissionChecks(api, later.state, retry.input);
    CommandHasNoColon();
    RetryGetsFirstResponse(api, w, first, between, retry);
  }

  // ---- decisions that raise ----

  /** A decision gives no response and yet changes the state exactly when its reason code is looked at too late. */
  lemma RaisesAndLeavesIff(state: State, input: Input)
    requires Sound(state.service)
    ensures Run(state, input).1.None? && Run(state, input).0 != state <==>
            && Current(state.service, DecisionOf(input)) && DecisionOf(input).reason.Unknown? && !RefusedCorrection(DecisionOf(input))
  {
    var d := DecisionOf(input);
    if Current(state.service, d) {
      FailsIff(state.service, d);
      assert !Attempt(state.service, d).Fails? ==> Run(state, input).0.service.items[d.approvalId] != state.service.items[d.approvalId];
    }
  }

  /** Such a decision does not use up its key: the next one about the item, whatever its payload, is carried out under the same key
      and answered. Together they change the state twice. */
  lemma RaisingDecisionKeepsKeyFree(w: Idempotency.World<State, Body, Item>, first: Request<Input, Body>, next: Request<Input, Body>)
    requires first.command == next.command == COMMAND
    requires IdempotencyKey(first.headers).Some? && IdempotencyKey(next.headers) == IdempotencyKey(first.headers)
    requires RecordId(COMMAND, IdempotencyKey(first.headers).value) !in w.results
    requires Sound(w.state.service) && Admits(w.state, first.input)
    requires Current(w.state.service, DecisionOf(first.input)) && first.input.body.reason.Unknown? && !RefusedCorrection(DecisionOf(first.input))
    requires next.input.pathId == next.input.body.approvalId == first.input.pathId && next.input.authorized
    ensures Serve(DecisionApi(), w, first).1 == Failed
    ensures Serve(DecisionApi(), Serve(DecisionApi(), w, first).0, next).1.Done?
    ensures Changes(DecisionApi(), w, [first, next], COMMAND, IdempotencyKey(first.headers).value) == 2
  {
    RaisesAndLeavesIff(w.state, first.input);
    ServedDecision(w, first);
    var left := Serve(DecisionApi(), w, first).0;
    assert left == Idempotency.World(Run(w.state, first.input).0, w.results);
    ServedDecision(left, next);
    SecondDecisionReturns(w.state, first.input, next.input);
    TwoChanges(DecisionApi(), w, first, next, COMMAND, IdempotencyKey(first.headers).value);
  }

  lemma SecondDecisionReturns(state: State, first: Input, next: Input)
    requires Sound(state.service) && Admits(state, first)
    requires Current(state.service, DecisionOf(first)) && DecisionOf(first).reason.Unknown? && !RefusedCorrection(DecisionOf(first))
    requires next.pathId == next.body.approvalId == first.pathId && next.authorized
    ensures var left := Run(state, first).0;
            && Run(state, first).1.None? && Admits(left, next)
            && Run(left, next).1.Some? && Run(left, next).0 != left
  {
    FailsIff(state.service, DecisionOf(first));
    var left := Run(state, first).0;
    assert left.service.items[first.pathId].status != Pending;
    assert |Run(left, next).0.audit| == |left.audit| + 1;
  }

  lemma TwoChanges(api: Api<State, Input, Item>, w: Idempotency.World<State, Body, Item>, first: Request<Input, Body>,
                   next: Request<Input, Body>, command: string, key: string)
    requires For(first, command, key) && For(next, command, key)
    requires ChangesState(api, w, first) && ChangesState(api, Serve(api, w, first).0, next)
    ensures Changes(api, w, [first, next], command, key) == 2
  {
    var left := Serve(api, w, first).0;
    assert [first, next][1..] == [next] && [next][1..] == [];
    assert Changes(api, left, [next], command, key) == 1;
  }

  function RaisingInput(e: Approvals.Edge): Input {
    Input(ApprovalId(e), Body(ApprovalId(e), Approve, "reviewer", None, None, None, None, Unknown("unclear")), 0, true)
  }

  /** So the decision command is not atomic: a single staged edge is enough. */
  lemma DecisionIsNotAtomic(e: Approvals.Edge)
    ensures !Atomic(DecisionApi()(COMMAND))
  {
    var state := State(StageOne(EMPTY_SERVICE, "", "", "", e), EMPTY_GRAPH, []);
    var input := RaisingInput(e);
    StageKeepsSound(EMPTY_SERVICE, "", "", "", e);
    RaisesAndLeavesIff(state, input);
    AdmissionChecks(DecisionApi(), state, input);
    var handler := DecisionApi()(COMMAND);
    assert handler.admits(state, input) && handler.run(state, input) == Run(state, input);
  }

  // ---- persisting what was decided ----

  /** The persist call after a decision needs the source node of every edge of the graph. */
  predicate Persistable(graph: Graph, nodes: set<string>) {
    forall id :: id in graph.edges ==> graph.edges[id].source in nodes
  }

  /** A commit keeps the graph persistable exactly when its edge starts at a known node: nothing checks that before the commit. */
  lemma CommitKeepsPersistableIff(w: Approvals.World, d: Decision, nodes: set<string>)
    requires Consistent(w) && Attempt(w.service, d).Commits? && Attempt(w.service, d).key !in w.graph.keys && Persistable(w.graph, nodes)
    ensures SoundDelta(Attempt(w.service, d).delta)
    ensures Persistable(Approvals.Next(w, DecideEvent(d)).graph, nodes) <==>
            Attempt(w.service, d).delta.operations[0].payload.edge.source in nodes
  {
    EffectSound(w.service, d);
    var delta := Attempt(w.service, d).delta;
    CommitSound(w.graph, delta, Attempt(w.service, d).key);
    var e := delta.operations[0].payload.edge;
    OneEdgeMore(w.graph, Approvals.Next(w, DecideEvent(d)).graph, e, nodes);
  }

  lemma OneEdgeMore(before: Graph, after: Graph, e: Approvals.Edge, nodes: set<string>)
    requires after.edges == before.edges[e.edgeId := e] && Persistable(before, nodes)
    ensures Persistable(after, nodes) <==> e.source in nodes
  {
    assert e.edgeId in after.edges && after.edges[e.edgeId] == e;
  }

  /** The edge of a corrected delta starts where the correction says, and at the staged edge's source if it says nothing. */
  lemma CorrectedSource(s: Service, d: Decision)
    requires Sound(s) && Attempt(s, d).Commits? && Attempt(s, d).key.corrected
    ensures SoundDelta(Attempt(s, d).delta) && SoundDelta(s.deltas[s.items[d.approvalId].deltaRef.value])
    ensures Attempt(s, d).delta.operations[0].payload.edge.source ==
            Or(d.correction.value.source, s.deltas[s.items[d.approvalId].deltaRef.value].operations[0].payload.edge.source)
  {
    EffectSound(s, d);
    var original := s.deltas[s.items[d.approvalId].deltaRef.value];
    assert original.operations[1..] == [];
    assert CorrectedOperations([], d) == Some([]);
  }

  ghost function PersistingApi(nodes: set<string>): Api<State, Input, Item> {
    (command: string) => ThenPersist(DecisionApi()(command), (state: State) => Persistable(state.graph, nodes))
  }

  lemma PersistingRun(nodes: set<string>, state: State, input: Input)
    ensures PersistingApi(nodes)(COMMAND).admits(state, input) == Admits(state, input)
    ensures var (after, response) := Run(state, input);
            PersistingApi(nodes)(COMMAND).run(state, input) == (after, if Persistable(after.graph, nodes) then response else None)
  {
    var decisions := DecisionApi()(COMMAND);
    assert decisions.run(state, input) == Run(state, input);
    assert PersistingApi(nodes)(COMMAND) == ThenPersist(decisions, (s: State) => Persistable(s.graph, nodes));
  }

  /** While the graph holds such an edge no decision that is carried out gives a response, whatever it is about. */
  lemma NoResponseUnlessPersistable(nodes: set<string>, w: Idempotency.World<State, Body, Item>, request: Request<Input, Body>)
    requires request.command == COMMAND && Admits(w.state, request.input)
    requires Prepare(w.results, request).Proceed? && Prepare(w.results, request).context.cached.None?
    requires !Persistable(Run(w.state, request.input).0.graph, nodes)
    ensures Serve(PersistingApi(nodes), w, request) == (Idempotency.World(Run(w.state, request.input).0, w.results), Failed)
  {
    PersistingRun(nodes, w.state, request.input);
  }
}
