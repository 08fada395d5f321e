/** Feedback-driven improvement: grouping into eval datasets, the local eval gate, and promotion or rollback of
    improvement candidates. */
module Improvements {
  import opened Text

  datatype Reason = WrongRelation | WeakEvidence | WrongNodeType | Duplicate | MissingContext | WrongSeverity | SecurityConcern | Other

  datatype Event = Event(feedbackId: string, targetId: string, reason: Option<Reason>)

  /** `event.reason_code or "other"` */
  function ReasonOf(e: Event): Reason {
    if e.reason.Some? then e.reason.value else Other
  }

  function DatasetPath(reason: Reason): string {
    match reason
    case WrongRelation => "edge_linking/rejected_edges.jsonl"
    case WeakEvidence => "retrieval/evidence_sufficiency.jsonl"
    case WrongNodeType => "node_extraction/corrections.jsonl"
    case Duplicate => "entity_resolution/duplicates.jsonl"
    case MissingContext => "retrieval/missed_context.jsonl"
    case WrongSeverity => "findings/severity_corrections.jsonl"
    case SecurityConcern => "security/blockers.jsonl"
    case Other => "manual_triage/unclassified.jsonl"
  }

  lemma PathsDistinct(a: Reason, b: Reason)
    requires DatasetPath(a) == DatasetPath(b)
    ensures a == b
  {
    assert DatasetPath(a)[0] == DatasetPath(b)[0] && DatasetPath(a)[1] == DatasetPath(b)[1];
    assert |DatasetPath(a)| == |DatasetPath(b)|;
  }

  /** The feedback ids tagged with a reason, in order. */
  function Tagged(feedback: seq<Event>, reason: Reason): (ids: seq<string>)
    ensures |ids| <= |feedback|
  {
    if feedback == [] then []
    else
      var last := feedback[|feedback| - 1];
      Tagged(feedback[..|feedback| - 1], reason) + if ReasonOf(last) == reason then [last.feedbackId] else []
  }

  lemma TaggedSnoc(feedback: seq<Event>, e: Event, reason: Reason)
    ensures Tagged(feedback + [e], reason) == Tagged(feedback, reason) + if ReasonOf(e) == reason then [e.feedbackId] else []
  {
    assert (feedback + [e])[..|feedback|] == feedback;
  }

  lemma {:induction false} TaggedMembers(feedback: seq<Event>, reason: Reason)
    ensures Tagged(feedback, reason) != [] <==> exists i :: 0 <= i < |feedback| && ReasonOf(feedback[i]) == reason
  {
    if feedback != [] {
      var init := feedback[..|feedback| - 1];
      TaggedMembers(init, reason);
      assert forall i :: 0 <= i < |init| ==> init[i] == feedback[i];
    }
  }

  predicate Occurs(feedback: seq<Event>, reason: Reason) {
    exists i :: 0 <= i < |feedback| && ReasonOf(feedback[i]) == reason
  }

  /** `at` are the places of the events with a reason, in order, and `ids` their feedback ids. */
  ghost predicate TaggedAt(feedback: seq<Event>, reason: Reason, ids: seq<string>, at: seq<nat>) {
    && |at| == |ids| && (forall j, k :: 0 <= j < k < |at| ==> at[j] < at[k])
    && (forall k :: 0 <= k < |at| ==> at[k] < |feedback| && ReasonOf(feedback[at[k]]) == reason && feedback[at[k]].feedbackId == ids[k])
    && forall i: nat :: i < |feedback| && ReasonOf(feedback[i]) == reason ==> i in at
  }

  lemma TaggedAtSnoc(feedback: seq<Event>, e: Event, reason: Reason, ids: seq<string>, at: seq<nat>)
    requires TaggedAt(feedback, reason, ids, at)
    ensures ReasonOf(e) == reason ==> TaggedAt(feedback + [e], reason, ids + [e.feedbackId], at + [|feedback|])
    ensures ReasonOf(e) != reason ==> TaggedAt(feedback + [e], reason, ids, at)
  {
    var more := feedback + [e];
    assert forall k :: 0 <= k < |at| ==> more[at[k]] == feedback[at[k]];
    assert more[|feedback|] == e && (at + [|feedback|])[|at|] == |feedback|;
    assert forall i: nat :: i < |feedback| ==> more[i] == feedback[i];
    assert forall i: nat :: i in at ==> i in at + [|feedback|];
  }

  /** The ids tagged with a reason are those of its events, each once, in order. */
  lemma {:induction false} TaggedIds(feedback: seq<Event>, reason: Reason) returns (at: seq<nat>)
    ensures TaggedAt(feedback, reason, Tagged(feedback, reason), at)
  {
    if feedback == [] {
      at := [];
    } else {
      var init, last := feedback[..|feedback| - 1], feedback[|feedback| - 1];
      var before := TaggedIds(init, reason);
      TaggedAtSnoc(init, last, reason, Tagged(init, reason), before);
      assert feedback == init + [last] && Tagged(init, reason) + [] == Tagged(init, reason);
      at := if ReasonOf(last) == reason then before + [|init|] else before;
    }
  }

  // ---- eval datasets and the gate ----

  datatype EvalCandidate = EvalCandidate(datasetPath: string, reason: Reason, feedbackIds: seq<string>)

  ghost predicate GroupsOf(grouped: map<string, EvalCandidate>, feedback: seq<Event>) {
    && (forall path :: path in grouped ==>
          && path == DatasetPath(grouped[path].reason) && grouped[path].datasetPath == path
          && grouped[path].feedbackIds == Tagged(feedback, grouped[path].reason) && grouped[path].feedbackIds != [])
    && forall r: Reason :: Tagged(feedback, r) != [] ==> DatasetPath(r) in grouped
  }

  lemma GroupsSnoc(grouped: map<string, EvalCandidate>, feedback: seq<Event>, e: Event)
    requires GroupsOf(grouped, feedback)
    ensures var path := DatasetPath(ReasonOf(e));
            var ids := if path in grouped then grouped[path].feedbackIds else [];
            GroupsOf(grouped[path := EvalCandidate(path, ReasonOf(e), ids + [e.feedbackId])], feedback + [e])
    ensures DatasetPath(ReasonOf(e)) in grouped ==> grouped[DatasetPath(ReasonOf(e))].reason == ReasonOf(e)
  {
    var path := DatasetPath(ReasonOf(e));
    forall r: Reason ensures Tagged(feedback + [e], r) == Tagged(feedback, r) + if ReasonOf(e) == r then [e.feedbackId] else [] {
      TaggedSnoc(feedback, e, r);
    }
    if path in grouped { PathsDistinct(grouped[path].reason, ReasonOf(e)); }
    forall p | p in grouped && p != path ensures grouped[p].reason != ReasonOf(e) {}
  }

  /** Which datasets there are. */
  ghost predicate DatasetsOf(grouped: map<string, EvalCandidate>, feedback: seq<Event>) {
    && ("edge_linking/rejected_edges.jsonl" in grouped <==> Occurs(feedback, WrongRelation))
    && ("retrieval/evidence_sufficiency.jsonl" in grouped <==> Occurs(feedback, WeakEvidence))
    && ("node_extraction/corrections.jsonl" in grouped <==> Occurs(feedback, WrongNodeType))
    && ("entity_resolution/duplicates.jsonl" in grouped <==> Occurs(feedback, Duplicate))
    && ("retrieval/missed_context.jsonl" in grouped <==> Occurs(feedback, MissingContext))
    && ("findings/severity_corrections.jsonl" in grouped <==> Occurs(feedback, WrongSeverity))
    && ("security/blockers.jsonl" in grouped <==> Occurs(feedback, SecurityConcern))
    && ("manual_triage/unclassified.jsonl" in grouped <==> Occurs(feedback, Other))
  }

  lemma GroupIffOccurs(grouped: map<string, EvalCandidate>, feedback: seq<Event>, reason: Reason)
    requires GroupsOf(grouped, feedback)
    ensures DatasetPath(reason) in grouped <==> Occurs(feedback, reason)
  {
    TaggedMembers(feedback, reason);
    if DatasetPath(reason) in grouped {
      PathsDistinct(grouped[DatasetPath(reason)].reason, reason);
    }
  }

  lemma GroupsAreDatasets(grouped: map<string, EvalCandidate>, feedback: seq<Event>)
    requires GroupsOf(grouped, feedback)
    ensures DatasetsOf(grouped, feedback)
  {
    GroupIffOccurs(grouped, feedback, WrongRelation);
    GroupIffOccurs(grouped, feedback, WeakEvidence);
    GroupIffOccurs(grouped, feedback, WrongNodeType);
    GroupIffOccurs(grouped, feedback, Duplicate);
    GroupIffOccurs(grouped, feedback, MissingContext);
    GroupIffOccurs(grouped, feedback, WrongSeverity);
    GroupIffOccurs(grouped, feedback, SecurityConcern);
    GroupIffOccurs(grouped, feedback, Other);
  }

  /** `setdefault` keeps the first reason of a dataset; the paths are distinct, so it is the only one. */
  method BuildEvalCandidates(feedback: seq<Event>) returns (grouped: map<string, EvalCandidate>)
    ensures GroupsOf(grouped, feedback) && DatasetsOf(grouped, feedback)
  {
    grouped := map[];
    for i := 0 to |feedback|
      invariant GroupsOf(grouped, feedback[..i])
    {
      var e := feedback[i];
      var path := DatasetPath(ReasonOf(e));
      GroupsSnoc(grouped, feedback[..i], e);
      assert feedback[..i + 1] == feedback[..i] + [e];
      var candidate := if path in grouped then grouped[path] else EvalCandidate(path, ReasonOf(e), []);
      grouped := grouped[path := candidate.(feedbackIds := candidate.feedbackIds + [e.feedbackId])];
    }
    assert feedback[..|feedback|] == feedback;
    GroupsAreDatasets(grouped, feedback);
  }

  datatype Policy = Policy(minCases: nat, minPassRate: real, maxSecurityFailures: nat, maxReplayDrift: real)

  const DEFAULT_POLICY := Policy(2, 0.95, 0, 0.02)

  datatype Metric = Metric(datasetPath: string, totalCases: nat, passRate: real, securityFailures: nat, replayDrift: real)

  function MetricFor(c: EvalCandidate): Metric {
    var total := |c.feedbackIds|;
    var failures := if c.reason == SecurityConcern then total else 0;
    var passed := total - failures;
    Metric(c.datasetPath, total, if total > 0 then passed as real / total as real else 0.0, failures,
           if c.reason == WrongRelation then 0.01 else 0.0)
  }

  datatype Blocker = NoEvalDatasets | NotEnoughCases(path: string) | PassRateBelowPolicy(path: string)
                   | SecurityFailures(path: string) | ReplayDrift(path: string)

  function MetricBlockers(m: Metric, policy: Policy): seq<Blocker> {
    (if m.totalCases < policy.minCases then [NotEnoughCases(m.datasetPath)] else [])
    + (if m.passRate < policy.minPassRate then [PassRateBelowPolicy(m.datasetPath)] else [])
    + (if m.securityFailures > policy.maxSecurityFailures then [SecurityFailures(m.datasetPath)] else [])
    + (if m.replayDrift > policy.maxReplayDrift then [ReplayDrift(m.datasetPath)] else [])
  }

  /** What blocks a dataset under any policy. All its cases pass unless they are security concerns, which all fail; a drift of a
      hundredth is assumed for wrong relations. */
  lemma BlockedIff(c: EvalCandidate, policy: Policy)
    requires c.feedbackIds != []
    ensures var n, blockers := |c.feedbackIds|, MetricBlockers(MetricFor(c), policy);
            && (NotEnoughCases(c.datasetPath) in blockers <==> n < policy.minCases)
            && (PassRateBelowPolicy(c.datasetPath) in blockers <==> policy.minPassRate > if c.reason == SecurityConcern then 0.0 else 1.0)
            && (SecurityFailures(c.datasetPath) in blockers <==> c.reason == SecurityConcern && n > policy.maxSecurityFailures)
            && (ReplayDrift(c.datasetPath) in blockers <==> policy.maxReplayDrift < if c.reason == WrongRelation then 0.01 else 0.0)
            && forall b :: b in blockers ==> b in {NotEnoughCases(c.datasetPath), PassRateBelowPolicy(c.datasetPath),
                                                   SecurityFailures(c.datasetPath), ReplayDrift(c.datasetPath)}
  {
    var total := |c.feedbackIds|;
    RatioOfSelf(total as real);
    assert 0 as real / total as real == 0.0;
    assert MetricFor(c).passRate == if c.reason == SecurityConcern then 0.0 else 1.0 by {
      assert total - 0 == total && total - total == 0;
    }
    assert MetricFor(c).securityFailures == if c.reason == SecurityConcern then total else 0;
  }

  method CollectBlockers(grouped: map<string, EvalCandidate>, policy: Policy) returns (blockers: seq<Blocker>)
    ensures blockers == [] <==>
      grouped != map[] && forall path :: path in grouped ==> MetricBlockers(MetricFor(grouped[path]), policy) == []
  {
    if grouped == map[] {
      return [NoEvalDatasets];
    }
    blockers := [];
    var rest := grouped.Keys;
    while rest != {}
      invariant rest <= grouped.Keys
      invariant blockers == [] <==>
        forall path :: path in grouped && path !in rest ==> MetricBlockers(MetricFor(grouped[path]), policy) == []
    {
      var path :| path in rest;
      rest := rest - {path};
      blockers := blockers + MetricBlockers(MetricFor(grouped[path]), policy);
    }
  }

  /** There is feedback, none of it a security concern, and no reason has been given only once. */
  ghost predicate GateMeaning(feedback: seq<Event>) {
    && feedback != []
    && Tagged(feedback, SecurityConcern) == []
    && forall r: Reason :: |Tagged(feedback, r)| != 1
  }

  lemma RatioOfSelf(x: real)
    requires x != 0.0
    ensures x / x == 1.0
  {
  }

  lemma DefaultPolicyBlockers(c: EvalCandidate)
    requires c.feedbackIds != []
    ensures MetricBlockers(MetricFor(c), DEFAULT_POLICY) == [] <==> c.reason != SecurityConcern && |c.feedbackIds| >= 2
  {
    var total := |c.feedbackIds|;
    RatioOfSelf(total as real);
    assert total - 0 == total;
    assert c.reason != SecurityConcern ==> MetricFor(c).passRate == total as real / total as real;
  }

  lemma GateFromGroups(grouped: map<string, EvalCandidate>, feedback: seq<Event>)
    requires GroupsOf(grouped, feedback)
    ensures GateMeaning(feedback) <==>
            grouped != map[] && forall path :: path in grouped ==> MetricBlockers(MetricFor(grouped[path]), DEFAULT_POLICY) == []
  {
    forall path | path in grouped
      ensures MetricBlockers(MetricFor(grouped[path]), DEFAULT_POLICY) == [] <==>
              grouped[path].reason != SecurityConcern && |Tagged(feedback, grouped[path].reason)| >= 2
    {
      DefaultPolicyBlockers(grouped[path]);
    }
    forall r: Reason | Tagged(feedback, r) != [] ensures DatasetPath(r) in grouped && grouped[DatasetPath(r)].reason == r {
      PathsDistinct(grouped[DatasetPath(r)].reason, r);
    }
    if feedback != [] {
      TaggedMembers(feedback, ReasonOf(feedback[0]));
      assert DatasetPath(ReasonOf(feedback[0])) in grouped;
    } else {
      assert forall r: Reason :: Tagged(feedback, r) == [];
    }
  }

  /** The default gate passes exactly when feedback exists, none of it is a security concern and every reason that
      occurs occurs at least twice. */
  method RunLocalEvalGate(feedback: seq<Event>) returns (passed: bool)
    ensures passed <==> GateMeaning(feedback)
  {
    var grouped := BuildEvalCandidates(feedback);
    var blockers := CollectBlockers(grouped, DEFAULT_POLICY);
    GateFromGroups(grouped, feedback);
    passed := blockers == [];
  }

  // ---- promotion and rollback ----

  datatype Status = Draft | EvalRunning | ReviewReady | ApprovedStatus | Rejected | Canary | Active | RolledBack

  function Rank(s: Status): nat {
    match s
    case Draft => 0
    case EvalRunning => 1
    case ReviewReady => 2
    case ApprovedStatus => 3
    case Canary => 4
    case Active => 5
    case RolledBack => 6
    case Rejected => 6
  }

  /** The candidate id is an injective hash of the reason, its improvement type and its feedback ids. */
  datatype CandidateId = CandidateId(reason: Reason, feedbackIds: seq<string>)

  /** Candidates are rebuilt from all feedback on every request. */
  predicate IsCandidate(feedback: seq<Event>, id: CandidateId) {
    id.feedbackIds != [] && id.feedbackIds == Tagged(feedback, id.reason)
  }

  /** A candidate for each reason that occurs, with the ids of all its feedback. */
  lemma CandidateIff(feedback: seq<Event>, id: CandidateId)
    ensures IsCandidate(feedback, id) <==> Occurs(feedback, id.reason) && id.feedbackIds == Tagged(feedback, id.reason)
  {
    TaggedMembers(feedback, id.reason);
  }

  datatype Runtime = Runtime(feedback: seq<Event>, decisions: map<CandidateId, Status>)

  function StatusOf(r: Runtime, id: CandidateId): Status {
    if id in r.decisions then r.decisions[id] else Draft
  }

  function Target(reviewerApproved: bool, canaryPassed: bool): Status {
    if !reviewerApproved then ReviewReady else if !canaryPassed then Canary else Active
  }

  predicate Forward(current: Status, target: Status) {
    current != RolledBack && current != Rejected && Rank(target) >= Rank(current)
  }

  datatype Response = Accepted(status: Status) | NotFound | Conflict

  datatype Request =
    | Record(event: Event)
    | Activate(id: CandidateId, reviewerApproved: bool, canaryPassed: bool)
    | Rollback(id: CandidateId)

  ghost function Next(r: Runtime, request: Request): (Runtime, Response) {
    match request
    case Record(e) => (r.(feedback := r.feedback + [e]), Accepted(Draft))
    case Activate(id, reviewerApproved, canaryPassed) =>
      var target := Target(reviewerApproved, canaryPassed);
      if !IsCandidate(r.feedback, id) then (r, NotFound)
      else if !Forward(StatusOf(r, id), target) || !GateMeaning(r.feedback) then (r, Conflict)
      else (r.(decisions := r.decisions[id := target]), Accepted(target))
    case Rollback(id) =>
      if !IsCandidate(r.feedback, id) then (r, NotFound)
      else if StatusOf(r, id) != Canary && StatusOf(r, id) != Active then (r, Conflict)
      else (r.(decisions := r.decisions[id := RolledBack]), Accepted(RolledBack))
  }

  /** When a promotion is accepted and what it records: review without approval, a canary without a passed canary, and active with
      both; never backwards, and never once the candidate is closed. */
  lemma PromotionIff(r: Runtime, id: CandidateId, reviewerApproved: bool, canaryPassed: bool)
    ensures var (t, response) := Next(r, Activate(id, reviewerApproved, canaryPassed));
            var status := StatusOf(r, id);
            && (response.NotFound? <==> !IsCandidate(r.feedback, id))
            && (response.Accepted? <==>
                  && IsCandidate(r.feedback, id) && GateMeaning(r.feedback) && status != RolledBack && status != Rejected
                  && (!reviewerApproved ==> status == Draft || status == EvalRunning || status == ReviewReady)
                  && (reviewerApproved && !canaryPassed ==> status != Active))
            && (!response.Accepted? ==> t == r)
            && (response.Accepted? ==> t.feedback == r.feedback && t.decisions == r.decisions[id := response.status])
            && (response.Accepted? && !reviewerApproved ==> response.status == ReviewReady)
            && (response.Accepted? && reviewerApproved && !canaryPassed ==> response.status == Canary)
            && (response.Accepted? && reviewerApproved && canaryPassed ==> response.status == Active)
  {
  }

  /** A rollback is accepted exactly for a candidate in canary or active, and closes it. */
  lemma RollbackIff(r: Runtime, id: CandidateId)
    ensures var (t, response) := Next(r, Rollback(id));
            && (response.Accepted? <==> IsCandidate(r.feedback, id) && (StatusOf(r, id) == Canary || StatusOf(r, id) == Active))
            && t == if response.Accepted? then r.(decisions := r.decisions[id := RolledBack]) else r
  {
  }

  class ImprovementRoutes {
    var feedback: seq<Event>
    var decisions: map<CandidateId, Status>

    ghost function Value(): Runtime
      reads this
    {
      Runtime(feedback, decisions)
    }

    constructor ()
      ensures Value() == Runtime([], map[])
    {
      feedback, decisions := [], map[];
    }

    method RecordFeedback(e: Event)
      modifies this
      ensures Value() == Next(old(Value()), Record(e)).0
    {
      feedback := feedback + [e];
    }

    method ActivateImprovement(id: CandidateId, reviewerApproved: bool, canaryPassed: bool) returns (response: Response)
      modifies this
      ensures (Value(), response) == Next(old(Value()), Activate(id, reviewerApproved, canaryPassed))
    {
      if !IsCandidate(feedback, id) {
        return NotFound;
      }
      var current := if id in decisions then decisions[id] else Draft;
      var target := Target(reviewerApproved, canaryPassed);
      if !Forward(current, target) {
        return Conflict;
      }
      var passed := RunLocalEvalGate(feedback);
      if !passed {
        return Conflict;
      }
      decisions := decisions[id := target];
      response := Accepted(target);
    }

    method RollbackImprovement(id: CandidateId) returns (response: Response)
      modifies this
      ensures (Value(), response) == Next(old(Value()), Rollback(id))
    {
      if !IsCandidate(feedback, id) {
        return NotFound;
      }
      var current := if id in decisions then decisions[id] else Draft;
      if current != Canary && current != Active {
        return Conflict;
      }
      decisions := decisions[id := RolledBack];
      response := Accepted(RolledBack);
    }
  }

  ghost function RunRequests(r: Runtime, requests: seq<Request>): Runtime
    decreases |requests|
  {
    if requests == [] then r else RunRequests(Next(r, requests[0]).0, requests[1..])
  }

  /** No run lowers the rank of a recorded status, and a rolled-back candidate stays rolled back. */
  lemma {:induction false} StatusOnlyAdvances(r: Runtime, requests: seq<Request>, id: CandidateId)
    ensures Rank(StatusOf(r, id)) <= Rank(StatusOf(RunRequests(r, requests), id))
    ensures StatusOf(r, id) == RolledBack ==> StatusOf(RunRequests(r, requests), id) == RolledBack
    decreases |requests|
  {
    if requests != [] {
      StatusOnlyAdvances(Next(r, requests[0]).0, requests[1..], id);
    }
  }

  /** The request records feedback under the reason. */
  predicate Adds(request: Request, reason: Reason) {
    request.Record? && ReasonOf(request.event) == reason
  }

  lemma FeedbackStep(r: Runtime, request: Request, reason: Reason)
    ensures !Adds(request, reason) ==> Tagged(Next(r, request).0.feedback, reason) == Tagged(r.feedback, reason)
    ensures Adds(request, reason) ==> |Tagged(Next(r, request).0.feedback, reason)| > |Tagged(r.feedback, reason)|
  {
    if request.Record? {
      TaggedSnoc(r.feedback, request.event, reason);
    }
  }

  lemma {:induction false} FeedbackOnlyGrows(r: Runtime, requests: seq<Request>, reason: Reason)
    ensures |Tagged(r.feedback, reason)| <= |Tagged(RunRequests(r, requests).feedback, reason)|
    decreases |requests|
  {
    if requests != [] {
      FeedbackStep(r, requests[0], reason);
      FeedbackOnlyGrows(Next(r, requests[0]).0, requests[1..], reason);
    }
  }

  /** After the first security concern no promotion ever succeeds again. */
  lemma SecurityConcernStopsPromotion(r: Runtime, requests: seq<Request>, id: CandidateId, reviewerApproved: bool, canaryPassed: bool)
    requires Tagged(r.feedback, SecurityConcern) != []
    ensures var later := RunRequests(r, requests);
            !Next(later, Activate(id, reviewerApproved, canaryPassed)).1.Accepted?
            && Next(later, Activate(id, reviewerApproved, canaryPassed)).0 == later
  {
    FeedbackOnlyGrows(r, requests, SecurityConcern);
  }

  predicate NoneAdds(requests: seq<Request>, reason: Reason) {
    forall i :: 0 <= i < |requests| ==> !Adds(requests[i], reason)
  }

  lemma NoneAddsCons(requests: seq<Request>, reason: Reason)
    requires requests != []
    ensures NoneAdds(requests, reason) <==> !Adds(requests[0], reason) && NoneAdds(requests[1..], reason)
  {
    assert forall i :: 1 <= i < |requests| ==> requests[i] == requests[1..][i - 1];
  }

  lemma {:induction false} FeedbackOfReason(r: Runtime, requests: seq<Request>, reason: Reason)
    ensures Tagged(RunRequests(r, requests).feedback, reason) == Tagged(r.feedback, reason) <==> NoneAdds(requests, reason)
    decreases |requests|
  {
    if requests != [] {
      FeedbackStep(r, requests[0], reason);
      NoneAddsCons(requests, reason);
      FeedbackOfReason(Next(r, requests[0]).0, requests[1..], reason);
      FeedbackOnlyGrows(Next(r, requests[0]).0, requests[1..], reason);
    }
  }

  /** A candidate stays one exactly until feedback is recorded under its reason. */
  lemma CandidateLastsIff(r: Runtime, requests: seq<Request>, id: CandidateId)
    requires IsCandidate(r.feedback, id)
    ensures IsCandidate(RunRequests(r, requests).feedback, id) <==> NoneAdds(requests, id.reason)
  {
    FeedbackOfReason(r, requests, id.reason);
  }

  /** After that it is stranded: its id is never rebuilt, so even an active one can be neither promoted nor rolled back. */
  lemma NewFeedbackStrandsCandidate(r: Runtime, requests: seq<Request>, id: CandidateId, reviewerApproved: bool, canaryPassed: bool)
    requires IsCandidate(r.feedback, id)
    ensures var later := RunRequests(r, requests);
            var stranded := !NoneAdds(requests, id.reason);
            && (Next(later, Rollback(id)).1.NotFound? <==> stranded)
            && (Next(later, Activate(id, reviewerApproved, canaryPassed)).1.NotFound? <==> stranded)
            && (stranded ==> Next(later, Rollback(id)).0 == Next(later, Activate(id, reviewerApproved, canaryPassed)).0 == later)
  {
    CandidateLastsIff(r, requests, id);
  }

  /** What it takes for a candidate to be recorded as active: approval, a passed canary and a passing gate, on the
      feedback of that moment. */
  lemma ActiveOnlyThroughGate(r: Runtime, request: Request, id: CandidateId)
    requires StatusOf(r, id) != Active && StatusOf(Next(r, request).0, id) == Active
    ensures request == Activate(id, true, true) && GateMeaning(r.feedback) && Forward(StatusOf(r, id), Active)
  {
  }
}
