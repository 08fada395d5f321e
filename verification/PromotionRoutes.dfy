/** The promotion and rollback endpoints: idempotent commands over the improvement decisions, the audit trail and the record
    of earlier requests. */
module PromotionRoutes {
  import opened Idempotency
  import opened Text
  import Improvements

  datatype Input =
    | Promote(id: Improvements.CandidateId, reviewerApproved: bool, canaryPassed: bool, actor: string)
    | RollBack(id: Improvements.CandidateId, actor: string)

  datatype AuditEntry = AuditEntry(command: string, actor: string, target: Improvements.CandidateId, status: Improvements.Status)

  datatype Answer = Answer(id: Improvements.CandidateId, status: Improvements.Status, previous: Improvements.Status)

  datatype State = State(runtime: Improvements.Runtime, audit: seq<AuditEntry>)

  const ACTIVATE := "improvements.activate"
  const ROLLBACK := "improvements.rollback"

  /** The commands are two of the API's. */
  lemma CommandsOfApi(input: Input)
    ensures input.Promote? ==> CommandOf(input) == CommandName(ImprovementsActivate)
    ensures input.RollBack? ==> CommandOf(input) == CommandName(ImprovementsRollback)
  {
  }

  function CommandOf(input: Input): string {
    if input.Promote? then ACTIVATE else ROLLBACK
  }

  function Asked(input: Input): Improvements.Request {
    match input
    case Promote(id, reviewerApproved, canaryPassed, _) => Improvements.Activate(id, reviewerApproved, canaryPassed)
    case RollBack(id, _) => Improvements.Rollback(id)
  }

  /** The candidate is looked up before the idempotency check. */
  predicate Admits(state: State, command: string, input: Input) {
    command == CommandOf(input) && Improvements.IsCandidate(state.runtime.feedback, input.id)
  }

  function Audited(input: Input, status: Improvements.Status): AuditEntry {
    AuditEntry(CommandOf(input), input.actor, input.id, status)
  }

  /** A refused transition or gate raises before anything is recorded. */
  ghost function Run(state: State, input: Input): (State, Option<Answer>) {
    var (runtime, response) := Improvements.Next(state.runtime, Asked(input));
    if !response.Accepted? then (State(runtime, state.audit), None)
    else (State(runtime, state.audit + [Audited(input, response.status)]),
          Some(Answer(input.id, response.status, Improvements.StatusOf(state.runtime, input.id))))
  }

  ghost function PromotionApi(): Api<State, Input, Answer> {
    (command: string) =>
      Handler((state: State, input: Input) => Admits(state, command, input), (state: State, input: Input) => Run(state, input))
  }

  /** What an accepted promotion or rollback leaves: one audit entry under its command, with the actor and the new status, and an answer
      with the new and the previous status. */
  lemma Promoted(state: State, input: Input)
    requires Run(state, input).1.Some?
    ensures var (after, answer) := Run(state, input);
            && after.runtime == Improvements.Next(state.runtime, Asked(input)).0
            && after.audit == state.audit + [AuditEntry(if input.Promote? then "improvements.activate" else "improvements.rollback",
                                                        input.actor, input.id, Improvements.StatusOf(after.runtime, input.id))]
            && answer.value.id == input.id && answer.value.status == Improvements.StatusOf(after.runtime, input.id)
            && answer.value.previous == Improvements.StatusOf(state.runtime, input.id)
  {
  }

  class Endpoint {
    const routes: Improvements.ImprovementRoutes
    var audit: seq<AuditEntry>
    var results: map<string, Record<Input, Answer>>

    constructor (routes: Improvements.ImprovementRoutes)
      ensures this.routes == routes && audit == [] && results == map[]
    {
      this.routes := routes;
      audit, results := [], map[];
    }

    ghost function Value(): World<State, Input, Answer>
      reads this, routes
    {
      World(State(routes.Value(), audit), results)
    }

    method PrepareIdempotency(request: Request<Input, Input>) returns (prepared: Prepared<Input, Answer>)
      ensures prepared == Prepare(results, request)
    {
      var key := IdempotencyKey(request.headers);
      if key.None? {
        return Proceed(Context(None, request.payload, None));
      }
      var id := RecordId(request.command, key.value);
      if id !in results {
        return Proceed(Context(key, request.payload, None));
      }
      if results[id].requestHash != request.payload {
        return Reused(key.value);
      }
      return Proceed(Context(key, request.payload, Some(results[id].response)));
    }

    method Carry(input: Input) returns (answer: Option<Answer>)
      modifies this`audit, routes
      ensures (State(routes.Value(), audit), answer) == Run(old(State(routes.Value(), audit)), input)
    {
      var previous := if input.id in routes.decisions then routes.decisions[input.id] else Improvements.Draft;
      var response: Improvements.Response;
      match input {
        case Promote(id, reviewerApproved, canaryPassed, _) => response := routes.ActivateImprovement(id, reviewerApproved, canaryPassed);
        case RollBack(id, _) => response := routes.RollbackImprovement(id);
      }
      if !response.Accepted? {
        return None;
      }
      audit := audit + [Audited(input, response.status)];
      answer := Some(Answer(input.id, response.status, previous));
    }

    method Decide(request: Request<Input, Input>) returns (outcome: Outcome<Answer>)
      modifies this, routes
      ensures (Value(), outcome) == Serve(PromotionApi(), old(Value()), request)
    {
      var input := request.input;
      if request.command != CommandOf(input) || !Improvements.IsCandidate(routes.feedback, input.id) {
        return Refused;
      }
      var prepared := PrepareIdempotency(request);
      if prepared.Reused? {
        return Conflict;
      }
      if prepared.context.cached.Some? {
        return Done(prepared.context.cached.value);
      }
      var answer := Carry(input);
      if answer.None? {
        return Failed;
      }
      results := File(results, request.command, prepared.context, answer.value);
      outcome := Done(answer.value);
    }
  }

  // ---- at most once ----

  lemma PromotionsAreAtomic(command: string)
    ensures Atomic(PromotionApi()(command))
  {
    var handler := PromotionApi()(command);
    forall state: State, input: Input | handler.admits(state, input) && handler.run(state, input).1.None?
      ensures handler.run(state, input).0 == state
    {
      assert handler.run(state, input) == Run(state, input);
    }
  }

  /** Unlike a decision, a promotion or a rollback changes the state at most once under a key, whatever other commands there are. */
  lemma PromotedAtMostOnce(api: Api<State, Input, Answer>, w: World<State, Input, Answer>, requests: seq<Request<Input, Input>>,
                           command: string, key: string)
    requires api(command) == PromotionApi()(command) && ColonFree(command) && Commands(requests)
    ensures Changes(api, w, requests, command, key) <= 1
  {
    PromotionsAreAtomic(command);
    AtMostOnce(api, w, requests, command, key);
  }

  /** Records stay as they are. */
  ghost predicate Kept(before: map<string, Record<Input, Answer>>, after: map<string, Record<Input, Answer>>) {
    forall id :: id in before ==> id in after && after[id] == before[id]
  }

  /** A retry under its key gets the first answer exactly until feedback is recorded under the candidate's reason: after that the
      candidate is not found, although the record of the answer is still there. */
  lemma RetryAnsweredIff(w: World<State, Input, Answer>, first: Request<Input, Input>, requests: seq<Improvements.Request>,
                         later: World<State, Input, Answer>)
    requires TakesEffect(PromotionApi(), w, first) && IdempotencyKey(first.headers).Some?
    requires Kept(Serve(PromotionApi(), w, first).0.results, later.results)
    requires later.state.runtime == Improvements.RunRequests(Serve(PromotionApi(), w, first).0.state.runtime, requests)
    ensures var done := Serve(PromotionApi(), w, first).1;
            Serve(PromotionApi(), later, first) ==
            (later, if Improvements.NoneAdds(requests, first.input.id.reason) then done else Refused)
  {
    var key := IdempotencyKey(first.headers).value;
    var (start, done) := Serve(PromotionApi(), w, first);
    EffectIsFiled(PromotionApi(), w, first, key);
    AnsweredFromRecord(PromotionApi(), later, first, key, Record(first.command, key, first.payload, done.response));
    CarriedOnCandidate(w.state, first.input);
    Improvements.CandidateLastsIff(start.state.runtime, requests, first.input.id);
  }

  lemma CarriedOnCandidate(state: State, input: Input)
    ensures Run(state, input).0.runtime.feedback == state.runtime.feedback
  {
  }
}
