/** The production-readiness report: gates of the environment, gates that need reviewed evidence, and what the evidence may
    change. */
module Readiness {
  import opened Text

  datatype Status = Passed | Warning | Failed | ManualRequired

  function StatusName(status: Status): string {
    match status
    case Passed => "passed"
    case Warning => "warning"
    case Failed => "failed"
    case ManualRequired => "manual_required"
  }

  datatype Check = Check(checkId: string, status: Status, summary: string, evidence: seq<string>, nextAction: Option<string>)

  /** Reviewed evidence for one gate; a loaded record is never `ManualRequired`. */
  datatype ManualEvidence = ManualEvidence(checkId: string, status: Status, summary: string, evidence: seq<string>)

  datatype Summary = Summary(passed: nat, warning: nat, failed: nat, manualRequired: nat)

  datatype Report = Report(passed: bool, summary: Summary, checks: seq<Check>, manualEvidenceCount: nat)

  // ---- gates of the environment ----

  predicate Unset(env: map<string, string>, key: string) {
    key !in env || env[key] == ""
  }

  /** Whether a key is set, never its value. */
  function Presence(env: map<string, string>, key: string): string {
    key + "=" + if Unset(env, key) then "<unset>" else "<set>"
  }

  function PresenceAll(env: map<string, string>, keys: seq<string>): (r: seq<string>)
    ensures |r| == |keys| && forall i :: 0 <= i < |keys| ==> r[i] == Presence(env, keys[i])
  {
    if keys == [] then [] else [Presence(env, keys[0])] + PresenceAll(env, keys[1..])
  }

  function MissingKeys(env: map<string, string>, keys: seq<string>): (r: seq<string>)
    ensures r == [] <==> forall i :: 0 <= i < |keys| ==> !Unset(env, keys[i])
  {
    if keys == [] then []
    else
      assert forall i :: 1 <= i < |keys| ==> keys[i] == keys[1..][i - 1];
      (if Unset(env, keys[0]) then [keys[0]] else []) + MissingKeys(env, keys[1..])
  }

  function CommaList(keys: seq<string>): string {
    if keys == [] then "" else if |keys| == 1 then keys[0] else keys[0] + ", " + CommaList(keys[1..])
  }

  /** `", ".join(keys)` */
  lemma {:induction false} CommaListSnoc(keys: seq<string>, key: string)
    ensures CommaList([]) == "" && CommaList([key]) == key
    ensures keys != [] ==> CommaList(keys + [key]) == CommaList(keys) + ", " + key
  {
    if |keys| == 1 {
      assert (keys + [key])[1..] == [key];
    } else if keys != [] {
      CommaListSnoc(keys[1..], key);
      assert (keys + [key])[0] == keys[0] && (keys + [key])[1..] == keys[1..] + [key];
      assert keys[0] + ", " + (CommaList(keys[1..]) + ", " + key) == keys[0] + ", " + CommaList(keys[1..]) + ", " + key;
    }
  }

  /** `_expect_mode` */
  function ExpectMode(env: map<string, string>, checkId: string, modeKey: string, expectedMode: string, requiredKeys: seq<string>,
                      nextAction: string): Check {
    var mode := if modeKey in env then env[modeKey] else "";
    var missing := MissingKeys(env, requiredKeys);
    if mode == expectedMode && missing == [] then
      Check(checkId, Passed, modeKey + " is configured for " + expectedMode + ".", [modeKey + "=" + mode] + PresenceAll(env, requiredKeys), None)
    else
      Check(checkId, Failed,
            modeKey + " must be " + expectedMode + "; missing keys: " + (if missing == [] then "none" else CommaList(missing)) + ".",
            [modeKey + "=" + if mode == "" then "<unset>" else mode] + PresenceAll(env, requiredKeys), Some(nextAction))
  }

  /** `_expect_keys` */
  function ExpectKeys(env: map<string, string>, checkId: string, requiredKeys: seq<string>, nextAction: string): Check {
    var missing := MissingKeys(env, requiredKeys);
    Check(checkId, if missing == [] then Passed else Failed,
          if missing == [] then "Required environment keys are present." else "Missing keys: " + CommaList(missing) + ".",
          PresenceAll(env, requiredKeys), if missing == [] then None else Some(nextAction))
  }

  /** `_external_rehearsal_check`: always waits for reviewed evidence. */
  function ExternalRehearsal(env: map<string, string>, checkId: string, keys: seq<string>, nextAction: string): Check {
    Check(checkId, ManualRequired,
          if |MissingKeys(env, keys)| < |keys| then "Endpoint configuration exists, but a real rehearsal result is still required."
          else "No company/staging endpoint configuration was found.",
          PresenceAll(env, keys), Some(nextAction))
  }

  /** A mode gate passes exactly when the mode is the expected one and every required key is set, and fails otherwise. */
  lemma ModeGateIff(env: map<string, string>, checkId: string, modeKey: string, mode: string, keys: seq<string>, next: string)
    ensures var gate := ExpectMode(env, checkId, modeKey, mode, keys, next);
            && gate.checkId == checkId
            && (gate.status == Passed <==>
                  && (if modeKey in env then env[modeKey] == mode else mode == "")
                  && forall i :: 0 <= i < |keys| ==> keys[i] in env && env[keys[i]] != "")
            && (gate.status != Passed ==> gate.status == Failed && gate.nextAction == Some(next))
  {
  }

  /** A key gate passes exactly when every key is set; a rehearsal gate always waits for evidence. */
  lemma KeyGateIff(env: map<string, string>, checkId: string, keys: seq<string>, next: string)
    ensures var gate := ExpectKeys(env, checkId, keys, next);
            && gate.checkId == checkId
            && (gate.status == Passed <==> forall i :: 0 <= i < |keys| ==> keys[i] in env && env[keys[i]] != "")
            && (gate.status != Passed ==> gate.status == Failed && gate.nextAction == Some(next))
    ensures ExternalRehearsal(env, checkId, keys, next).status == ManualRequired
    ensures ExternalRehearsal(env, checkId, keys, next).checkId == checkId
  {
  }

  // ---- reviewed evidence ----

  /** `{record.check_id: record}`: the last record of a gate counts. */
  function EvidenceFor(manual: seq<ManualEvidence>, checkId: string): (r: Option<ManualEvidence>)
    ensures r.Some? ==> r.value in manual && r.value.checkId == checkId
    ensures r.None? ==> forall m :: m in manual ==> m.checkId != checkId
    ensures r.Some? ==> exists i :: 0 <= i < |manual| && manual[i] == r.value && forall j :: i < j < |manual| ==> manual[j].checkId != checkId
  {
    if manual == [] then None
    else if manual[|manual| - 1].checkId == checkId then Some(manual[|manual| - 1])
    else EvidenceFor(manual[..|manual| - 1], checkId)
  }

  const IGNORED := "manual_evidence_ignored:not_manual_gate"

  function Reviewed(check: Check, evidence: Option<ManualEvidence>): Check {
    if evidence.None? then check
    else if check.status != ManualRequired then
      check.(summary := check.summary + " Manual evidence was ignored because this is not a manual gate.",
             evidence := check.evidence + [IGNORED])
    else
      Check(check.checkId, evidence.value.status, evidence.value.summary, check.evidence + evidence.value.evidence,
            if evidence.value.status == Passed then None else check.nextAction)
  }

  function UnknownEvidence(record: ManualEvidence): Check {
    Check("unknown_manual_evidence:" + record.checkId, Warning, "Manual evidence references an unknown readiness check id.",
          record.evidence, Some("Remove or rename the unknown evidence check id."))
  }

  predicate Known(checks: seq<Check>, checkId: string) {
    exists i :: 0 <= i < |checks| && checks[i].checkId == checkId
  }

  function ReviewedAll(checks: seq<Check>, manual: seq<ManualEvidence>): (r: seq<Check>)
    ensures |r| == |checks|
    ensures forall i :: 0 <= i < |checks| ==> r[i] == Reviewed(checks[i], EvidenceFor(manual, checks[i].checkId))
  {
    if checks == [] then []
    else
      ReviewedAll(checks[..|checks| - 1], manual)
      + [Reviewed(checks[|checks| - 1], EvidenceFor(manual, checks[|checks| - 1].checkId))]
  }

  function Unknowns(checks: seq<Check>, manual: seq<ManualEvidence>): seq<Check> {
    if manual == [] then []
    else
      var record := manual[|manual| - 1];
      Unknowns(checks, manual[..|manual| - 1]) + if Known(checks, record.checkId) then [] else [UnknownEvidence(record)]
  }

  method ReviewChecks(checks: seq<Check>, manual: seq<ManualEvidence>) returns (updated: seq<Check>)
    ensures updated == ReviewedAll(checks, manual)
  {
    updated := [];
    for i := 0 to |checks|
      invariant updated == ReviewedAll(checks[..i], manual)
    {
      assert checks[..i + 1][..i] == checks[..i];
      var check, evidence := checks[i], EvidenceFor(manual, checks[i].checkId);
      if evidence.None? {
        updated := updated + [check];
      } else if check.status != ManualRequired {
        updated := updated + [check.(summary := check.summary + " Manual evidence was ignored because this is not a manual gate.",
                                     evidence := check.evidence + [IGNORED])];
      } else {
        updated := updated + [Check(check.checkId, evidence.value.status, evidence.value.summary,
                                    check.evidence + evidence.value.evidence,
                                    if evidence.value.status == Passed then None else check.nextAction)];
      }
    }
    assert checks[..|checks|] == checks;
  }

  method UnknownChecks(checks: seq<Check>, manual: seq<ManualEvidence>) returns (unknowns: seq<Check>)
    ensures unknowns == Unknowns(checks, manual)
  {
    unknowns := [];
    for i := 0 to |manual|
      invariant unknowns == Unknowns(checks, manual[..i])
    {
      assert manual[..i + 1][..i] == manual[..i];
      if Known(checks, manual[i].checkId) {
        continue;
      }
      unknowns := unknowns + [UnknownEvidence(manual[i])];
    }
    assert manual[..|manual|] == manual;
  }

  /** What becomes of a check: nothing without evidence; a note if it is not a manual gate, whatever the evidence says; and the status
      and summary of the evidence if it is. */
  ghost predicate Settled(check: Check, manual: seq<ManualEvidence>, after: Check) {
    && after.checkId == check.checkId
    && ((forall m :: m in manual ==> m.checkId != check.checkId) ==> after == check)
    && ((exists m :: m in manual && m.checkId == check.checkId) ==>
          if check.status != ManualRequired then
            && after.status == check.status && after.nextAction == check.nextAction
            && after.evidence == check.evidence + ["manual_evidence_ignored:not_manual_gate"] && check.summary <= after.summary
          else exists i :: 0 <= i < |manual| && LastFor(manual, i, check.checkId)
                 && after.status == manual[i].status && after.summary == manual[i].summary
                 && after.evidence == check.evidence + manual[i].evidence
                 && (manual[i].status == Passed ==> after.nextAction == None)
                 && (manual[i].status != Passed ==> after.nextAction == check.nextAction))
  }

  predicate LastFor(manual: seq<ManualEvidence>, i: nat, checkId: string)
    requires i < |manual|
  {
    manual[i].checkId == checkId && forall j :: i < j < |manual| ==> manual[j].checkId != checkId
  }

  /** The warning names the record. */
  predicate WarnsOf(record: ManualEvidence, c: Check) {
    && c.checkId == "unknown_manual_evidence:" + record.checkId && c.status == Warning && c.evidence == record.evidence
    && c.summary == "Manual evidence references an unknown readiness check id."
    && c.nextAction == Some("Remove or rename the unknown evidence check id.")
  }

  lemma ReviewedSettles(check: Check, manual: seq<ManualEvidence>)
    ensures Settled(check, manual, Reviewed(check, EvidenceFor(manual, check.checkId)))
  {
    var evidence := EvidenceFor(manual, check.checkId);
    if evidence.Some? {
      var i :| 0 <= i < |manual| && manual[i] == evidence.value && forall j :: i < j < |manual| ==> manual[j].checkId != check.checkId;
      assert LastFor(manual, i, check.checkId);
    }
  }

  lemma {:induction false} UnknownsWarn(checks: seq<Check>, manual: seq<ManualEvidence>)
    ensures forall c :: c in Unknowns(checks, manual) <==> exists m :: m in manual && !Known(checks, m.checkId) && WarnsOf(m, c)
  {
    if manual != [] {
      var init, last := manual[..|manual| - 1], manual[|manual| - 1];
      UnknownsWarn(checks, init);
      assert forall m :: m in manual <==> m in init || m == last;
      assert WarnsOf(last, UnknownEvidence(last));
      assert forall c :: WarnsOf(last, c) ==> c == UnknownEvidence(last);
    }
  }

  /** `_apply_manual_evidence` */
  method ApplyManualEvidence(checks: seq<Check>, manual: seq<ManualEvidence>) returns (updated: seq<Check>)
    ensures updated == ReviewedAll(checks, manual) + Unknowns(checks, manual)
    ensures |updated| >= |checks| && forall i :: 0 <= i < |checks| ==> Settled(checks[i], manual, updated[i])
    ensures forall c :: c in updated[|checks|..] <==> exists m :: m in manual && !Known(checks, m.checkId) && WarnsOf(m, c)
  {
    UnknownsWarn(checks, manual);
    var reviewed := ReviewChecks(checks, manual);
    var unknowns := UnknownChecks(checks, manual);
    updated := reviewed + unknowns;
    forall i | 0 <= i < |checks| ensures Settled(checks[i], manual, updated[i]) {
      ReviewedSettles(checks[i], manual);
      assert updated[i] == reviewed[i];
    }
    assert updated[|checks|..] == unknowns;
  }

  // ---- the summary ----

  function CountStatus(checks: seq<Check>, status: Status): nat {
    if checks == [] then 0 else CountStatus(checks[..|checks| - 1], status) + if checks[|checks| - 1].status == status then 1 else 0
  }

  function Summarize(checks: seq<Check>): Summary {
    Summary(CountStatus(checks, Passed), CountStatus(checks, Warning), CountStatus(checks, Failed), CountStatus(checks, ManualRequired))
  }

  /** `_summarize_checks` */
  method SummarizeChecks(checks: seq<Check>) returns (summary: Summary)
    ensures summary == Summarize(checks)
    ensures summary.passed + summary.warning + summary.failed + summary.manualRequired == |checks|
  {
    summary := Summary(0, 0, 0, 0);
    for i := 0 to |checks|
      invariant summary == Summarize(checks[..i])
      invariant summary.passed + summary.warning + summary.failed + summary.manualRequired == i
    {
      assert checks[..i + 1][..i] == checks[..i];
      match checks[i].status
      case Passed => summary := summary.(passed := summary.passed + 1);
      case Warning => summary := summary.(warning := summary.warning + 1);
      case Failed => summary := summary.(failed := summary.failed + 1);
      case ManualRequired => summary := summary.(manualRequired := summary.manualRequired + 1);
    }
    assert checks[..|checks|] == checks;
  }

  predicate AllClear(summary: Summary) {
    summary.failed == 0 && summary.manualRequired == 0 && summary.warning == 0
  }

  lemma {:induction false} NoneCounted(checks: seq<Check>, status: Status)
    ensures CountStatus(checks, status) == 0 <==> forall i :: 0 <= i < |checks| ==> checks[i].status != status
  {
    if checks != [] {
      var init := checks[..|checks| - 1];
      NoneCounted(init, status);
      assert forall i :: 0 <= i < |init| ==> init[i] == checks[i];
    }
  }

  ghost predicate AllPassed(checks: seq<Check>) {
    forall i :: 0 <= i < |checks| ==> checks[i].status == Passed
  }

  lemma ClearIffAllPassed(checks: seq<Check>)
    ensures AllClear(Summarize(checks)) <==> AllPassed(checks)
  {
    NoneCounted(checks, Warning);
    NoneCounted(checks, Failed);
    NoneCounted(checks, ManualRequired);
  }

  // ---- the report ----

  /** `gates` are the environment and rehearsal gates followed by the local-gate summary. */
  function ReportOn(gates: seq<Check>, manual: seq<ManualEvidence>): Report {
    var checks := ReviewedAll(gates, manual) + Unknowns(gates, manual);
    Report(AllClear(Summarize(checks)), Summarize(checks), checks, |manual|)
  }

  /** `build_readiness_report`: it passes exactly when every gate passes and all the evidence is for known gates. */
  method BuildReadinessReport(gates: seq<Check>, manual: seq<ManualEvidence>) returns (report: Report)
    ensures report == ReportOn(gates, manual)
    ensures report.passed <==> (forall i :: 0 <= i < |gates| ==> GatePasses(gates[i], manual)) && AllKnown(gates, manual)
  {
    ReportPassesIff(gates, manual);
    var checks := ApplyManualEvidence(gates, manual);
    var summary := SummarizeChecks(checks);
    report := Report(AllClear(summary), summary, checks, |manual|);
  }

  ghost predicate AllKnown(checks: seq<Check>, manual: seq<ManualEvidence>) {
    forall i :: 0 <= i < |manual| ==> Known(checks, manual[i].checkId)
  }

  lemma PassedTogether(a: seq<Check>, b: seq<Check>)
    ensures AllPassed(a + b) <==> AllPassed(a) && AllPassed(b)
  {
    assert forall i :: 0 <= i < |a| ==> (a + b)[i] == a[i];
    assert forall i :: 0 <= i < |b| ==> (a + b)[|a| + i] == b[i];
  }

  lemma OnePassed(check: Check)
    ensures AllPassed([check]) <==> check.status == Passed
  {
    assert [check][0] == check;
  }

  lemma {:induction false} NoUnknowns(checks: seq<Check>, manual: seq<ManualEvidence>)
    ensures AllPassed(Unknowns(checks, manual)) <==> AllKnown(checks, manual)
  {
    if manual != [] {
      var init, record := manual[..|manual| - 1], manual[|manual| - 1];
      NoUnknowns(checks, init);
      PassedTogether(Unknowns(checks, init), if Known(checks, record.checkId) then [] else [UnknownEvidence(record)]);
      OnePassed(UnknownEvidence(record));
      assert AllKnown(checks, manual) <==> AllKnown(checks, init) && Known(checks, record.checkId) by {
        assert forall i :: 0 <= i < |init| ==> init[i] == manual[i];
      }
    }
  }

  /** The gate passed on its own, or waits for evidence and has passing evidence. */
  predicate GatePasses(gate: Check, manual: seq<ManualEvidence>) {
    || gate.status == Passed
    || (gate.status == ManualRequired && EvidenceFor(manual, gate.checkId).Some?
        && EvidenceFor(manual, gate.checkId).value.status == Passed)
  }

  lemma ReviewedPasses(gates: seq<Check>, manual: seq<ManualEvidence>)
    ensures AllPassed(ReviewedAll(gates, manual)) <==> forall i :: 0 <= i < |gates| ==> GatePasses(gates[i], manual)
  {
    var reviewed := ReviewedAll(gates, manual);
    assert forall i :: 0 <= i < |gates| ==> (reviewed[i].status == Passed <==> GatePasses(gates[i], manual));
  }

  /** The report passes exactly when every gate passes and all the evidence is for known gates: evidence never turns a
      gate of the environment around. */
  lemma ReportPassesIff(gates: seq<Check>, manual: seq<ManualEvidence>)
    ensures ReportOn(gates, manual).passed <==>
            (forall i :: 0 <= i < |gates| ==> GatePasses(gates[i], manual)) && AllKnown(gates, manual)
  {
    ClearIffAllPassed(ReviewedAll(gates, manual) + Unknowns(gates, manual));
    PassedTogether(ReviewedAll(gates, manual), Unknowns(gates, manual));
    NoUnknowns(gates, manual);
    ReviewedPasses(gates, manual);
  }
}
