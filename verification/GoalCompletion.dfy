/** The goal-completion audit: blockers of the release scope, of the readiness gates and of the artifact checklist, and
    their summary. */
module GoalCompletion {
  import opened Readiness
  import opened Text
  import Sorting

  datatype ScopeItem = ScopeItem(itemId: string, status: string, notes: string, missingPaths: seq<string>, auditCovered: bool)

  datatype Scope = Scope(passed: bool, items: seq<ScopeItem>)

  datatype Blocker = Blocker(blockerId: string, status: string, summary: string, nextAction: string)

  const LOCAL_COMPLETE := "local_complete"
  const COMPANY_EVIDENCE := "company_evidence_required"

  /** Readiness gates an incomplete scope item waits for. */
  function Dependencies(itemId: string): seq<string> {
    if itemId == "jira_incremental_sync" then ["company_jira_sandbox_rehearsal"]
    else if itemId == "model_gateway_prompt_registry" then ["model_gateway_profile", "company_model_gateway_rehearsal"]
    else if itemId == "llm_assisted_suggestions" then ["company_model_gateway_rehearsal"]
    else if itemId == "sso_rbac_basic" then ["trusted_proxy_auth", "trusted_proxy_rbac_rehearsal"]
    else []
  }

  /** `{check_id: status}`: the last check of an id counts. */
  function StatusOf(checks: seq<Check>, checkId: string): Option<Status> {
    if checks == [] then None
    else if checks[|checks| - 1].checkId == checkId then Some(checks[|checks| - 1].status)
    else StatusOf(checks[..|checks| - 1], checkId)
  }

  predicate Unresolved(checks: seq<Check>, dependencies: seq<string>) {
    exists i :: 0 <= i < |dependencies| && StatusOf(checks, dependencies[i]) != Some(Passed)
  }

  /** `f"{item['notes']} Required readiness checks: {', '.join(dependencies) or '<unmapped>'}."` */
  function WaitingFor(item: ScopeItem): string {
    var names := CommaList(Dependencies(item.itemId));
    item.notes + " Required readiness checks: " + (if names == "" then "<unmapped>" else names) + "."
  }

  predicate Waits(item: ScopeItem, checks: seq<Check>) {
    item.status != LOCAL_COMPLETE && (Unresolved(checks, Dependencies(item.itemId)) || Dependencies(item.itemId) == [])
  }

  function MissingPathBlockers(item: ScopeItem, paths: seq<string>): (r: seq<Blocker>)
    ensures |r| == |paths|
  {
    if paths == [] then []
    else MissingPathBlockers(item, paths[..|paths| - 1])
         + [Blocker("release_scope:" + item.itemId + ":missing_path", "failed", paths[|paths| - 1], "Restore the missing release-scope artifact.")]
  }

  function ItemBlockers(item: ScopeItem, checks: seq<Check>): seq<Blocker> {
    (if Waits(item, checks)
     then [Blocker("release_scope:" + item.itemId, item.status, WaitingFor(item), "Collect company/staging evidence for this first-release item.")]
     else [])
    + MissingPathBlockers(item, item.missingPaths)
    + if item.auditCovered then []
      else [Blocker("release_scope:" + item.itemId + ":audit_coverage", "failed", "Completion audit marker is missing.",
                    "Update completion audit coverage for this item.")]
  }

  function Flat(each: ScopeItem -> seq<Blocker>, items: seq<ScopeItem>): seq<Blocker> {
    if items == [] then [] else Flat(each, items[..|items| - 1]) + each(items[|items| - 1])
  }

  lemma {:induction false} FlatEmptyIff(each: ScopeItem -> seq<Blocker>, items: seq<ScopeItem>)
    ensures Flat(each, items) == [] <==> forall i :: 0 <= i < |items| ==> each(items[i]) == []
  {
    if items != [] {
      var init := items[..|items| - 1];
      FlatEmptyIff(each, init);
      assert forall i :: 0 <= i < |init| ==> init[i] == items[i];
    }
  }

  function ScopeBlockers(items: seq<ScopeItem>, checks: seq<Check>): seq<Blocker> {
    Flat((item: ScopeItem) => ItemBlockers(item, checks), items)
  }

  method AddMissingPaths(item: ScopeItem) returns (blockers: seq<Blocker>)
    ensures blockers == MissingPathBlockers(item, item.missingPaths)
  {
    blockers := [];
    for i := 0 to |item.missingPaths|
      invariant blockers == MissingPathBlockers(item, item.missingPaths[..i])
    {
      assert item.missingPaths[..i + 1][..i] == item.missingPaths[..i];
      blockers := blockers + [Blocker("release_scope:" + item.itemId + ":missing_path", "failed", item.missingPaths[i], "Restore the missing release-scope artifact.")];
    }
    assert item.missingPaths[..|item.missingPaths|] == item.missingPaths;
  }

  method BlockersOfItem(item: ScopeItem, checks: seq<Check>) returns (blockers: seq<Blocker>)
    ensures blockers == ItemBlockers(item, checks)
  {
    blockers := [];
    if item.status != LOCAL_COMPLETE {
      var dependencies := Dependencies(item.itemId);
      if Unresolved(checks, dependencies) || dependencies == [] {
        blockers := [Blocker("release_scope:" + item.itemId, item.status, WaitingFor(item), "Collect company/staging evidence for this first-release item.")];
      }
    }
    var paths := AddMissingPaths(item);
    blockers := blockers + paths;
    if !item.auditCovered {
      blockers := blockers + [Blocker("release_scope:" + item.itemId + ":audit_coverage", "failed", "Completion audit marker is missing.",
                                      "Update completion audit coverage for this item.")];
    }
  }

  /** An item is not local-complete and a gate it depends on has not passed, or it depends on none. */
  ghost predicate Waiting(item: ScopeItem, checks: seq<Check>) {
    && item.status != "local_complete"
    && (Dependencies(item.itemId) == []
        || exists i :: 0 <= i < |Dependencies(item.itemId)| && !LastPassed(checks, Dependencies(item.itemId)[i]))
  }

  /** There is a check of this id, and the last one passed. */
  ghost predicate LastPassed(checks: seq<Check>, checkId: string) {
    exists i :: 0 <= i < |checks| && checks[i].checkId == checkId && checks[i].status == Passed
                && forall j :: i < j < |checks| ==> checks[j].checkId != checkId
  }

  /** The blockers of an item: for waiting, for each missing path, and for a missing audit marker. */
  ghost predicate Blocks(item: ScopeItem, checks: seq<Check>, b: Blocker) {
    || (Waiting(item, checks) && b.blockerId == "release_scope:" + item.itemId && b.status == item.status
        && b.summary == item.notes + " Required readiness checks: "
                        + (if Dependencies(item.itemId) == [] then "<unmapped>" else CommaList(Dependencies(item.itemId))) + "."
        && b.nextAction == "Collect company/staging evidence for this first-release item.")
    || (b.blockerId == "release_scope:" + item.itemId + ":missing_path" && b.status == "failed" && b.summary in item.missingPaths
        && b.nextAction == "Restore the missing release-scope artifact.")
    || (!item.auditCovered && b.blockerId == "release_scope:" + item.itemId + ":audit_coverage" && b.status == "failed"
        && b.summary == "Completion audit marker is missing." && b.nextAction == "Update completion audit coverage for this item.")
  }

  ghost predicate ScopeBlocks(items: seq<ScopeItem>, checks: seq<Check>, b: Blocker) {
    exists i :: 0 <= i < |items| && Blocks(items[i], checks, b)
  }

  lemma {:induction false} LastStatus(checks: seq<Check>, checkId: string)
    ensures StatusOf(checks, checkId) == Some(Passed) <==> LastPassed(checks, checkId)
  {
    if checks != [] {
      var init, last := checks[..|checks| - 1], checks[|checks| - 1];
      LastStatus(init, checkId);
      if last.checkId == checkId {
        assert LastPassed(checks, checkId) ==> last.status == Passed;
        assert last.status == Passed ==> checks[|checks| - 1].checkId == checkId;
      } else {
        LastPassedInit(checks, checkId);
      }
    }
  }

  lemma LastPassedInit(checks: seq<Check>, checkId: string)
    requires checks != [] && checks[|checks| - 1].checkId != checkId
    ensures LastPassed(checks, checkId) <==> LastPassed(checks[..|checks| - 1], checkId)
  {
    var init := checks[..|checks| - 1];
    if i :| 0 <= i < |init| && init[i].checkId == checkId && init[i].status == Passed
            && forall j :: i < j < |init| ==> init[j].checkId != checkId {
      assert checks[i] == init[i] && forall j :: i < j < |checks| ==> checks[j] == if j < |init| then init[j] else checks[|checks| - 1];
    }
    if i :| 0 <= i < |checks| && checks[i].checkId == checkId && checks[i].status == Passed
            && forall j :: i < j < |checks| ==> checks[j].checkId != checkId {
      assert init[i] == checks[i] && forall j :: i < j < |init| ==> init[j] == checks[j];
    }
  }

  lemma WaitsIff(item: ScopeItem, checks: seq<Check>)
    ensures Waits(item, checks) <==> Waiting(item, checks)
  {
    forall i | 0 <= i < |Dependencies(item.itemId)|
      ensures StatusOf(checks, Dependencies(item.itemId)[i]) == Some(Passed) <==> LastPassed(checks, Dependencies(item.itemId)[i]) {
      LastStatus(checks, Dependencies(item.itemId)[i]);
    }
  }

  lemma {:induction false} PathBlockersAre(item: ScopeItem, paths: seq<string>, b: Blocker)
    ensures b in MissingPathBlockers(item, paths) <==>
            b.blockerId == "release_scope:" + item.itemId + ":missing_path" && b.status == "failed" && b.summary in paths
            && b.nextAction == "Restore the missing release-scope artifact."
  {
    if paths != [] {
      var init, last := paths[..|paths| - 1], paths[|paths| - 1];
      PathBlockersAre(item, init, b);
      assert b.summary in paths <==> b.summary in init || b.summary == last;
    }
  }

  lemma NamesDependencies(item: ScopeItem)
    ensures WaitingFor(item) == item.notes + " Required readiness checks: "
                                + (if Dependencies(item.itemId) == [] then "<unmapped>" else CommaList(Dependencies(item.itemId))) + "."
  {
    var names := Dependencies(item.itemId);
    assert names != [] ==> names[0] != "";
    assert |names| == 1 ==> CommaList(names) == names[0];
    assert |names| > 1 ==> CommaList(names) == names[0] + ", " + CommaList(names[1..]);
  }

  /** Which gates an item waits for. */
  lemma WaitingIff(item: ScopeItem, checks: seq<Check>)
    requires item.status != "local_complete"
    ensures Waiting(item, checks) <==>
            if item.itemId == "jira_incremental_sync" then !LastPassed(checks, "company_jira_sandbox_rehearsal")
            else if item.itemId == "model_gateway_prompt_registry"
              then !LastPassed(checks, "model_gateway_profile") || !LastPassed(checks, "company_model_gateway_rehearsal")
            else if item.itemId == "llm_assisted_suggestions" then !LastPassed(checks, "company_model_gateway_rehearsal")
            else if item.itemId == "sso_rbac_basic"
              then !LastPassed(checks, "trusted_proxy_auth") || !LastPassed(checks, "trusted_proxy_rbac_rehearsal")
            else true
  {
    var names := Dependencies(item.itemId);
    assert |names| <= 2;
    assert |names| > 0 ==> ((exists i :: 0 <= i < |names| && !LastPassed(checks, names[i])) <==>
                            !LastPassed(checks, names[0]) || (|names| > 1 && !LastPassed(checks, names[1])));
  }

  lemma ItemBlockersAre(item: ScopeItem, checks: seq<Check>, b: Blocker)
    ensures b in ItemBlockers(item, checks) <==> Blocks(item, checks, b)
  {
    WaitsIff(item, checks);
    PathBlockersAre(item, item.missingPaths, b);
    NamesDependencies(item);
  }

  lemma {:induction false} FlatMembers(each: ScopeItem -> seq<Blocker>, items: seq<ScopeItem>, b: Blocker)
    ensures b in Flat(each, items) <==> exists i :: 0 <= i < |items| && b in each(items[i])
  {
    if items != [] {
      var init := items[..|items| - 1];
      FlatMembers(each, init, b);
      assert forall i :: 0 <= i < |init| ==> init[i] == items[i];
    }
  }

  lemma ScopeBlockersAre(items: seq<ScopeItem>, checks: seq<Check>)
    ensures forall b :: b in ScopeBlockers(items, checks) <==> ScopeBlocks(items, checks, b)
  {
    var each := (item: ScopeItem) => ItemBlockers(item, checks);
    forall b ensures b in ScopeBlockers(items, checks) <==> ScopeBlocks(items, checks, b) {
      FlatMembers(each, items, b);
      forall i | 0 <= i < |items| ensures b in each(items[i]) <==> Blocks(items[i], checks, b) { ItemBlockersAre(items[i], checks, b); }
    }
  }

  /** `_release_scope_blockers` */
  method ReleaseScopeBlockers(items: seq<ScopeItem>, checks: seq<Check>) returns (blockers: seq<Blocker>)
    ensures blockers == ScopeBlockers(items, checks)
    ensures forall b :: b in blockers <==> ScopeBlocks(items, checks, b)
  {
    ScopeBlockersAre(items, checks);
    blockers := [];
    ghost var each := (item: ScopeItem) => ItemBlockers(item, checks);
    for i := 0 to |items|
      invariant blockers == Flat(each, items[..i])
    {
      assert items[..i + 1][..i] == items[..i];
      var more := BlockersOfItem(items[i], checks);
      assert more == each(items[i]);
      blockers := blockers + more;
    }
    assert items[..|items|] == items;
  }

  /** A check that has not passed blocks with its own status, summary and next action. */
  predicate CheckBlocks(check: Check, b: Blocker) {
    && check.status != Passed && b.blockerId == "production_readiness:" + check.checkId && b.summary == check.summary
    && (check.status == Failed ==> b.status == "failed") && (check.status == Warning ==> b.status == "warning")
    && (check.status == ManualRequired ==> b.status == "manual_required")
    && b.nextAction == if check.nextAction.Some? && check.nextAction.value != "" then check.nextAction.value
                       else "Review the production readiness gate."
  }

  predicate GateBlocks(checks: seq<Check>, b: Blocker) {
    exists i :: 0 <= i < |checks| && CheckBlocks(checks[i], b)
  }

  lemma CheckBlockerIs(check: Check, b: Blocker)
    ensures CheckBlocks(check, b) <==> check.status != Passed && b == CheckBlocker(check)
  {
  }

  lemma GateBlocksSnoc(init: seq<Check>, last: Check, b: Blocker)
    ensures GateBlocks(init + [last], b) <==> GateBlocks(init, b) || CheckBlocks(last, b)
  {
    var checks := init + [last];
    assert checks[|init|] == last && forall i :: 0 <= i < |init| ==> checks[i] == init[i];
  }

  lemma {:induction false} ReadinessBlockersAre(checks: seq<Check>, b: Blocker)
    ensures b in ReadinessBlockers(checks) <==> GateBlocks(checks, b)
  {
    if checks != [] {
      var init, last := checks[..|checks| - 1], checks[|checks| - 1];
      ReadinessBlockersAre(init, b);
      CheckBlockerIs(last, b);
      GateBlocksSnoc(init, last, b);
      assert checks == init + [last];
    }
  }

  /** A checklist path that does not exist blocks. */
  predicate PathBlocks(missing: (string, string), b: Blocker) {
    && b.blockerId == "prompt_to_artifact:" + missing.0 + ":missing_artifact:" + missing.1 && b.status == "failed"
    && b.summary == "Prompt-to-artifact checklist path is missing: " + missing.1
    && b.nextAction == "Restore the missing artifact or update the checklist."
  }

  predicate PathsBlock(missing: seq<(string, string)>, b: Blocker) {
    exists i :: 0 <= i < |missing| && PathBlocks(missing[i], b)
  }

  lemma {:induction false} ArtifactBlockersAre(missing: seq<(string, string)>, b: Blocker)
    ensures b in ArtifactBlockers(missing) <==> PathsBlock(missing, b)
  {
    if missing != [] {
      ArtifactBlockersAre(missing[1..], b);
      assert forall i :: 1 <= i < |missing| ==> missing[i] == missing[1..][i - 1];
      assert PathBlocks(missing[0], b) <==> b == ArtifactBlockers(missing)[0];
    }
  }

  /** `_production_readiness_blockers` */
  function ReadinessBlockers(checks: seq<Check>): (r: seq<Blocker>)
    ensures r == [] <==> AllPassed(checks)
  {
    if checks == [] then []
    else
      var last := checks[|checks| - 1];
      var init := checks[..|checks| - 1];
      assert AllPassed(checks) <==> AllPassed(init) && last.status == Passed by {
        assert forall i :: 0 <= i < |init| ==> init[i] == checks[i];
      }
      ReadinessBlockers(init)
      + if last.status == Passed then []
        else [CheckBlocker(last)]
  }

  function CheckBlocker(check: Check): Blocker {
    Blocker("production_readiness:" + check.checkId, StatusName(check.status), check.summary,
            if check.nextAction.Some? && check.nextAction.value != "" then check.nextAction.value
            else "Review the production readiness gate.")
  }

  /** Blockers for checklist paths that do not exist, as pairs of criterion and path. */
  function ArtifactBlockers(missing: seq<(string, string)>): (r: seq<Blocker>)
    ensures |r| == |missing|
  {
    if missing == [] then []
    else [Blocker("prompt_to_artifact:" + missing[0].0 + ":missing_artifact:" + missing[0].1, "failed",
                  "Prompt-to-artifact checklist path is missing: " + missing[0].1,
                  "Restore the missing artifact or update the checklist.")]
         + ArtifactBlockers(missing[1..])
  }

  // ---- the summary of the blockers ----

  datatype BlockerSummary = BlockerSummary(company: nat, localAction: nat, byStatus: map<string, nat>, localBlockers: seq<string>)

  /** `_requires_company_or_staging_evidence` */
  predicate NeedsCompany(b: Blocker) {
    || b.status == COMPANY_EVIDENCE
    || ("production_readiness:" <= b.blockerId && b.blockerId != "production_readiness:local_regression_gates")
  }

  function CountBlockers(blockers: seq<Blocker>, status: string): nat {
    if blockers == [] then 0 else CountBlockers(blockers[..|blockers| - 1], status) + if blockers[|blockers| - 1].status == status then 1 else 0
  }

  function LocalIds(blockers: seq<Blocker>): seq<string> {
    if blockers == [] then []
    else LocalIds(blockers[..|blockers| - 1]) + if NeedsCompany(blockers[|blockers| - 1]) then [] else [blockers[|blockers| - 1].blockerId]
  }

  function ById(): (string, string) -> bool {
    (a: string, b: string) => StrLe(a, b)
  }

  /** Every blocker is counted once by status, and once as needing company evidence or local action. */
  ghost predicate Summarized(blockers: seq<Blocker>, company: nat, byStatus: map<string, nat>, localIds: seq<string>) {
    && company + |localIds| == |blockers|
    && localIds == LocalIds(blockers)
    && (forall s :: s in byStatus <==> CountBlockers(blockers, s) > 0)
    && (forall s :: s in byStatus ==> byStatus[s] == CountBlockers(blockers, s))
  }

  lemma SummarizedOneMore(blockers: seq<Blocker>, b: Blocker, company: nat, byStatus: map<string, nat>, localIds: seq<string>)
    requires Summarized(blockers, company, byStatus, localIds)
    ensures Summarized(blockers + [b], company + (if NeedsCompany(b) then 1 else 0),
                       byStatus[b.status := (if b.status in byStatus then byStatus[b.status] else 0) + 1],
                       localIds + if NeedsCompany(b) then [] else [b.blockerId])
  {
    assert (blockers + [b])[..|blockers|] == blockers;
    assert forall s :: CountBlockers(blockers + [b], s) == CountBlockers(blockers, s) + if b.status == s then 1 else 0;
  }

  /** Neither waiting for company evidence nor a readiness gate, but for the gate of the local regressions. */
  predicate IsLocal(b: Blocker) {
    && b.status != "company_evidence_required"
    && ("production_readiness:" <= b.blockerId ==> b.blockerId == "production_readiness:local_regression_gates")
  }

  predicate LocalBlocker(blockers: seq<Blocker>, id: string) {
    exists i :: 0 <= i < |blockers| && blockers[i].blockerId == id && IsLocal(blockers[i])
  }

  lemma SortedLocals(blockers: seq<Blocker>)
    ensures forall id :: id in Sorting.Sort(ById(), LocalIds(blockers)) <==> LocalBlocker(blockers, id)
  {
    forall id ensures id in LocalIds(blockers) <==> LocalBlocker(blockers, id) { LocalIdsAre(blockers, id); }
    Sorting.SameMembers(Sorting.Sort(ById(), LocalIds(blockers)), LocalIds(blockers));
  }

  lemma {:induction false} LocalIdsAre(blockers: seq<Blocker>, id: string)
    ensures id in LocalIds(blockers) <==> LocalBlocker(blockers, id)
  {
    if blockers != [] {
      var init := blockers[..|blockers| - 1];
      LocalIdsAre(init, id);
      assert NeedsCompany(blockers[|blockers| - 1]) <==> !IsLocal(blockers[|blockers| - 1]);
      assert forall i :: 0 <= i < |init| ==> init[i] == blockers[i];
    }
  }

  /** `_build_blocker_summary` */
  method BuildBlockerSummary(blockers: seq<Blocker>) returns (summary: BlockerSummary)
    ensures summary.company + summary.localAction == |blockers|
    ensures Summarized(blockers, summary.company, summary.byStatus, LocalIds(blockers))
    ensures summary.localBlockers == Sorting.Sort(ById(), LocalIds(blockers))
    ensures summary == SummaryOf(blockers)
    ensures forall id :: id in summary.localBlockers <==> LocalBlocker(blockers, id)
  {
    SortedLocals(blockers);
    var company: nat, byStatus, localIds := 0, map[], [];
    for i := 0 to |blockers|
      invariant Summarized(blockers[..i], company, byStatus, localIds)
    {
      var b := blockers[i];
      SummarizedOneMore(blockers[..i], b, company, byStatus, localIds);
      assert blockers[..i + 1] == blockers[..i] + [b];
      byStatus := byStatus[b.status := (if b.status in byStatus then byStatus[b.status] else 0) + 1];
      if NeedsCompany(b) {
        company := company + 1;
      } else {
        localIds := localIds + [b.blockerId];
      }
    }
    assert blockers[..|blockers|] == blockers;
    summary := BlockerSummary(company, |localIds|, byStatus, Sorting.Sort(ById(), localIds));
    SummaryOfIs(blockers, company, byStatus, localIds);
  }

  function ByStatus(blockers: seq<Blocker>): map<string, nat> {
    if blockers == [] then map[]
    else
      var before, status := ByStatus(blockers[..|blockers| - 1]), blockers[|blockers| - 1].status;
      before[status := (if status in before then before[status] else 0) + 1]
  }

  lemma {:induction false} ByStatusCounts(blockers: seq<Blocker>)
    ensures forall s :: s in ByStatus(blockers) <==> CountBlockers(blockers, s) > 0
    ensures forall s :: s in ByStatus(blockers) ==> ByStatus(blockers)[s] == CountBlockers(blockers, s)
  {
    if blockers != [] {
      ByStatusCounts(blockers[..|blockers| - 1]);
    }
  }

  function SummaryOf(blockers: seq<Blocker>): BlockerSummary {
    var localIds := LocalIds(blockers);
    LocalIdsAreSome(blockers);
    BlockerSummary(|blockers| - |localIds|, |localIds|, ByStatus(blockers), Sorting.Sort(ById(), localIds))
  }

  lemma {:induction false} LocalIdsAreSome(blockers: seq<Blocker>)
    ensures |LocalIds(blockers)| <= |blockers|
  {
    if blockers != [] {
      LocalIdsAreSome(blockers[..|blockers| - 1]);
    }
  }

  lemma SameByStatus(blockers: seq<Blocker>, byStatus: map<string, nat>)
    requires forall s :: s in byStatus <==> CountBlockers(blockers, s) > 0
    requires forall s :: s in byStatus ==> byStatus[s] == CountBlockers(blockers, s)
    ensures byStatus == ByStatus(blockers)
  {
    ByStatusCounts(blockers);
  }

  lemma SummaryOfIs(blockers: seq<Blocker>, company: nat, byStatus: map<string, nat>, localIds: seq<string>)
    requires Summarized(blockers, company, byStatus, localIds)
    ensures BlockerSummary(company, |localIds|, byStatus, Sorting.Sort(ById(), localIds)) == SummaryOf(blockers)
  {
    SameByStatus(blockers, byStatus);
  }

  // ---- the audit ----

  datatype GoalReport = GoalReport(goalComplete: bool, missingArtifacts: nat, remainingBlockerCount: nat, scopePassed: bool,
                                   scopeReady: bool, readinessPassed: bool, blockers: seq<Blocker>, blockerSummary: BlockerSummary)

  function AllBlockers(scope: Scope, readiness: Report, missing: seq<(string, string)>): seq<Blocker> {
    ScopeBlockers(scope.items, readiness.checks) + ReadinessBlockers(readiness.checks) + ArtifactBlockers(missing)
  }

  lemma AllBlockersAre(scope: Scope, readiness: Report, missing: seq<(string, string)>, b: Blocker)
    ensures b in AllBlockers(scope, readiness, missing) <==>
            ScopeBlocks(scope.items, readiness.checks, b) || GateBlocks(readiness.checks, b) || PathsBlock(missing, b)
  {
    ScopeBlockersAre(scope.items, readiness.checks);
    ReadinessBlockersAre(readiness.checks, b);
    ArtifactBlockersAre(missing, b);
  }

  /** `build_goal_completion_audit`, given the scope report, the readiness report and the missing checklist paths: complete
      exactly when nothing is open anywhere. */
  method BuildGoalCompletionAudit(scope: Scope, readiness: Report, missing: seq<(string, string)>) returns (goal: GoalReport)
    ensures goal == GoalFor(scope, readiness, missing)
    ensures goal.goalComplete <==>
            scope.passed && ItemsDone(scope.items, readiness.checks) && readiness.passed && AllPassed(readiness.checks) && missing == []
    ensures goal.remainingBlockerCount == |goal.blockers| && goal.missingArtifacts == |missing|
    ensures goal.scopePassed == scope.passed && goal.readinessPassed == readiness.passed
    ensures goal.scopeReady <==> scope.passed && ItemsDone(scope.items, readiness.checks)
    ensures forall b :: b in goal.blockers <==>
              ScopeBlocks(scope.items, readiness.checks, b) || GateBlocks(readiness.checks, b) || PathsBlock(missing, b)
  {
    forall b ensures b in AllBlockers(scope, readiness, missing) <==>
                     ScopeBlocks(scope.items, readiness.checks, b) || GateBlocks(readiness.checks, b) || PathsBlock(missing, b) {
      AllBlockersAre(scope, readiness, missing, b);
    }
    NoScopeBlockersIff(scope.items, readiness.checks);
    var scopeBlockers := ReleaseScopeBlockers(scope.items, readiness.checks);
    var blockers := scopeBlockers + ReadinessBlockers(readiness.checks);
    var scopeReady := scope.passed && scopeBlockers == [];
    blockers := blockers + ArtifactBlockers(missing);
    var summary := BuildBlockerSummary(blockers);
    goal := GoalReport(scopeReady && readiness.passed && blockers == [], |missing|, |blockers|, scope.passed, scopeReady, readiness.passed, blockers, summary);
  }

  function GoalFor(scope: Scope, readiness: Report, missing: seq<(string, string)>): GoalReport {
    var blockers := AllBlockers(scope, readiness, missing);
    var scopeReady := scope.passed && ScopeBlockers(scope.items, readiness.checks) == [];
    GoalReport(scopeReady && readiness.passed && blockers == [], |missing|, |blockers|, scope.passed, scopeReady, readiness.passed,
               blockers, SummaryOf(blockers))
  }

  ghost predicate ItemsDone(items: seq<ScopeItem>, checks: seq<Check>) {
    forall i :: 0 <= i < |items| ==> ItemDone(items[i], checks)
  }

  predicate ItemDone(item: ScopeItem, checks: seq<Check>) {
    !Waits(item, checks) && item.missingPaths == [] && item.auditCovered
  }

  lemma NoItemBlockersIff(item: ScopeItem, checks: seq<Check>)
    ensures ItemBlockers(item, checks) == [] <==> ItemDone(item, checks)
  {
  }

  lemma NoScopeBlockersIff(items: seq<ScopeItem>, checks: seq<Check>)
    ensures ScopeBlockers(items, checks) == [] <==> ItemsDone(items, checks)
  {
    FlatEmptyIff((item: ScopeItem) => ItemBlockers(item, checks), items);
    forall i | 0 <= i < |items| ensures ItemBlockers(items[i], checks) == [] <==> ItemDone(items[i], checks) {
      NoItemBlockersIff(items[i], checks);
    }
  }

  /** The goal is complete exactly when the scope passed, every scope item is done or has all the gates it waits for, every
      readiness gate passed, and no checklist artifact is missing. */
  lemma GoalCompleteIff(scope: Scope, gates: seq<Check>, manual: seq<ManualEvidence>, missing: seq<(string, string)>)
    ensures var readiness := ReportOn(gates, manual);
            GoalFor(scope, readiness, missing).goalComplete <==>
            scope.passed && ItemsDone(scope.items, readiness.checks) && readiness.passed && missing == []
  {
    var readiness := ReportOn(gates, manual);
    NoScopeBlockersIff(scope.items, readiness.checks);
    ClearIffAllPassed(readiness.checks);
  }
}
