/** The handoff bundle: one program writes it, another checks it. */
module HandoffBundle {
  import opened GoalCompletion
  import opened PlanText
  import opened Readiness
  import opened StagingPlan
  import opened Text

  // ---- files ----

  const GOAL_FILE := "goal-completion-report.json"
  const TEMPLATE_FILE := "manual-evidence-template.json"
  const READINESS_FILE := "production-readiness-report.json"
  const PLAN_FILE := "staging-evidence-plan.md"

  const EXPECTED: seq<string> := [GOAL_FILE, TEMPLATE_FILE, READINESS_FILE, PLAN_FILE]

  datatype Template = Template(gateIds: seq<string>)

  /** What a file holds. `EmptyObject` is the JSON object without fields, `NoObject` JSON that is no object or one of another shape, and
      `Unreadable` what is no JSON. */
  datatype File = PlanFile(content: string) | ReadinessFile(report: Report) | GoalFile(goal: GoalReport) | TemplateFile(template: Template)
                | EmptyObject | NoObject(json: string) | Unreadable(text: string)

  /** What `_load_json` gives: nothing and a failure, the object without fields, which is false to Python, or an object. */
  datatype Loaded<+T> = Refused(why: Refusal) | Hollow | Object(value: T)

  datatype Refusal = Missing | Invalid | NotObject

  /** A hash is modelled by what is hashed; the empty text is no hash and is false to Python. */
  datatype Hash = NoHash | HashOf(file: File)

  datatype Triple = Triple(blockerId: string, status: string, nextAction: string)

  datatype GoalSummary = GoalSummary(missingArtifacts: nat, remainingBlockers: nat, scopePassed: bool, scopeReady: bool, readinessPassed: bool)

  datatype Manifest = Manifest(schemaVersion: string, artifacts: seq<string>, hashes: map<string, Hash>, readinessPassed: bool,
                               goalComplete: bool, missingEnvCount: int, missingEnv: seq<string>, readinessSummary: Summary,
                               goalSummary: GoalSummary, blockerSummary: BlockerSummary, remainingBlockerCount: int,
                               remainingBlockers: seq<Triple>)

  datatype Bundle = Bundle(manifest: Loaded<Manifest>, files: map<string, File>)

  function SummaryOfGoal(goal: GoalReport): GoalSummary {
    GoalSummary(goal.missingArtifacts, goal.remainingBlockerCount, goal.scopePassed, goal.scopeReady, goal.readinessPassed)
  }

  function Triples(blockers: seq<Blocker>): (r: seq<Triple>)
    ensures |r| == |blockers|
    ensures forall i :: 0 <= i < |blockers| ==>
              r[i].blockerId == blockers[i].blockerId && r[i].status == blockers[i].status && r[i].nextAction == blockers[i].nextAction
  {
    if blockers == [] then []
    else Triples(blockers[..|blockers| - 1])
         + [Triple(blockers[|blockers| - 1].blockerId, blockers[|blockers| - 1].status, blockers[|blockers| - 1].nextAction)]
  }

  // ---- building ----

  function TemplateFor(report: Report): Template {
    Template(ManualIds(report.checks))
  }

  function ManualIds(checks: seq<Check>): seq<string> {
    if checks == [] then []
    else ManualIds(checks[..|checks| - 1]) + if checks[|checks| - 1].status == ManualRequired then [checks[|checks| - 1].checkId] else []
  }

  function FilesFor(plan: Plan, report: Report, goal: GoalReport): map<string, File> {
    map[PLAN_FILE := PlanFile(PlanContent(plan)), TEMPLATE_FILE := TemplateFile(TemplateFor(report)),
        READINESS_FILE := ReadinessFile(report), GOAL_FILE := GoalFile(goal)]
  }

  function HashesFor(plan: Plan, report: Report, goal: GoalReport): map<string, Hash> {
    map[PLAN_FILE := HashOf(PlanFile(PlanContent(plan))), TEMPLATE_FILE := HashOf(TemplateFile(TemplateFor(report))),
        READINESS_FILE := HashOf(ReadinessFile(report)), GOAL_FILE := HashOf(GoalFile(goal))]
  }

  function ManifestFor(plan: Plan, report: Report, goal: GoalReport): Manifest {
    Manifest("v1", EXPECTED, HashesFor(plan, report, goal), report.passed, goal.goalComplete, |plan.missingEnv|, plan.missingEnv,
             report.summary, SummaryOfGoal(goal), goal.blockerSummary, goal.remainingBlockerCount, Triples(goal.blockers))
  }

  method ManifestBlockers(goal: GoalReport) returns (blockers: seq<Triple>)
    ensures blockers == Triples(goal.blockers)
  {
    blockers := [];
    for i := 0 to |goal.blockers|
      invariant blockers == Triples(goal.blockers[..i])
    {
      assert goal.blockers[..i + 1][..i] == goal.blockers[..i];
      blockers := blockers + [Triple(goal.blockers[i].blockerId, goal.blockers[i].status, goal.blockers[i].nextAction)];
    }
    assert goal.blockers[..|goal.blockers|] == goal.blockers;
  }

  /** What every call finds the same: the guidance table, the final commands, the release scope and the missing artifacts. */
  datatype Setting = Setting(table: map<string, Guidance>, commands: seq<string>, scope: Scope, missing: seq<(string, string)>,
                             generatedAt: string, summaryText: string)

  /** `build_handoff_bundle`. The readiness gates are evaluated three times: for the plan, for the report and for the audit;
      when local gates are run the three evaluations may differ. If no other text looks like a missing-name line, the validator
      accepts the bundle exactly when every missing name can be printed and read back and the evaluations agree. */
  method BuildHandoffBundle(setting: Setting, planGates: seq<Check>, reportGates: seq<Check>, auditGates: seq<Check>,
                            manual: seq<ManualEvidence>)
    returns (bundle: Bundle)
    ensures bundle == BundleFor(setting, planGates, reportGates, auditGates, manual)
    ensures QuietElsewhere(PlanOf(setting, planGates, manual)) ==>
              (Accepted(bundle, setting.commands) <==>
                 && AllPrintable(PlanOf(setting, planGates, manual).gates) && NoneIsSeen(PlanOf(setting, planGates, manual).gates)
                 && ClaimsAgree(setting, planGates, reportGates, auditGates, manual))
    ensures TellsUnresolved(bundle, ReportOn(planGates, manual).checks)
  {
    var planReport := BuildReadinessReport(planGates, manual);
    var plan := PlanFor(planReport, setting.table, setting.generatedAt, setting.summaryText, setting.commands);
    var report := BuildReadinessReport(reportGates, manual);
    var auditReport := BuildReadinessReport(auditGates, manual);
    var goal := BuildGoalCompletionAudit(setting.scope, auditReport, setting.missing);
    var content := RenderMarkdown(plan);
    bundle := WriteBundle(plan, report, goal, content);
    PlanIsTold(setting, planReport, plan, report, goal);
    if QuietElsewhere(PlanOf(setting, planGates, manual)) {
      BuiltBundleConsistentIff(setting, planGates, reportGates, auditGates, manual);
    }
  }

  /** The manifest lists exactly the keys that checks which have not passed ask for, and the plan has a section for each of these
      checks. */
  ghost predicate TellsUnresolved(bundle: Bundle, checks: seq<Check>) {
    && bundle.manifest.Object? && PLAN_FILE in bundle.files
    && var m, content := bundle.manifest.value, PlanTextIn(bundle.files[PLAN_FILE]);
       && Contains(content, "# Staging Evidence Collection Plan") && Contains(content, "## Final Validation")
       && MissingNames(m.missingEnv, checks) && m.missingEnvCount == |m.missingEnv|
       && forall i :: 0 <= i < |checks| && checks[i].status != Passed ==> HasSection(content, checks[i])
  }

  lemma PlanIsTold(setting: Setting, planReport: Report, plan: Plan, report: Report, goal: GoalReport)
    requires plan == PlanFor(planReport, setting.table, setting.generatedAt, setting.summaryText, setting.commands)
    ensures TellsUnresolved(Bundle(Object(ManifestFor(plan, report, goal)), FilesFor(plan, report, goal)), planReport.checks)
  {
    PlanTells(planReport, setting.table, setting.generatedAt, setting.summaryText, setting.commands);
    PlanHasHeadings(plan);
    WrittenFiles(plan, report, goal);
    forall i: nat | i < |planReport.checks| && planReport.checks[i].status != Passed
      ensures HasSection(PlanContent(plan), planReport.checks[i])
    {
      PlanHasCheck(plan, planReport.checks, i);
    }
  }

  method WriteBundle(plan: Plan, report: Report, goal: GoalReport, content: string) returns (bundle: Bundle)
    requires content == PlanContent(plan)
    ensures bundle == Bundle(Object(ManifestFor(plan, report, goal)), FilesFor(plan, report, goal))
  {
    var planFile, templateFile, readinessFile, goalFile :=
      PlanFile(content), TemplateFile(TemplateFor(report)), ReadinessFile(report), GoalFile(goal);
    var files := map[PLAN_FILE := planFile, TEMPLATE_FILE := templateFile, READINESS_FILE := readinessFile, GOAL_FILE := goalFile];
    var hashes := map[PLAN_FILE := HashOf(planFile), TEMPLATE_FILE := HashOf(templateFile), READINESS_FILE := HashOf(readinessFile),
                      GOAL_FILE := HashOf(goalFile)];
    var blockers := ManifestBlockers(goal);
    bundle := Bundle(Object(Manifest("v1", EXPECTED, hashes, report.passed, goal.goalComplete, |plan.missingEnv|, plan.missingEnv,
                                     report.summary, SummaryOfGoal(goal), goal.blockerSummary, goal.remainingBlockerCount, blockers)),
                     files);
  }

  function PlanOf(setting: Setting, gates: seq<Check>, manual: seq<ManualEvidence>): Plan {
    PlanFor(ReportOn(gates, manual), setting.table, setting.generatedAt, setting.summaryText, setting.commands)
  }

  function GoalOf(setting: Setting, gates: seq<Check>, manual: seq<ManualEvidence>): GoalReport {
    GoalFor(setting.scope, ReportOn(gates, manual), setting.missing)
  }

  function BundleFor(setting: Setting, planGates: seq<Check>, reportGates: seq<Check>, auditGates: seq<Check>,
                     manual: seq<ManualEvidence>): Bundle {
    var plan, report, goal := PlanOf(setting, planGates, manual), ReportOn(reportGates, manual), GoalOf(setting, auditGates, manual);
    Bundle(Object(ManifestFor(plan, report, goal)), FilesFor(plan, report, goal))
  }

  // ---- what a consistent bundle is ----

  predicate Empty(file: File) {
    file == PlanFile("") || file == Unreadable("")
  }

  /** A file that is there is no JSON exactly when it is plan text or cannot be read. */
  function WhyNot(files: map<string, File>, name: string): (why: Refusal)
    ensures why.Missing? <==> name !in files
    ensures why.Invalid? <==> name in files && (files[name].PlanFile? || files[name].Unreadable?)
  {
    if name !in files then Missing
    else match files[name]
      case PlanFile(_) => Invalid
      case Unreadable(_) => Invalid
      case _ => NotObject
  }

  function ReportIn(files: map<string, File>): Loaded<Report> {
    if READINESS_FILE in files && files[READINESS_FILE].ReadinessFile? then Object(files[READINESS_FILE].report)
    else if READINESS_FILE in files && files[READINESS_FILE].EmptyObject? then Hollow
    else Refused(WhyNot(files, READINESS_FILE))
  }

  function GoalIn(files: map<string, File>): Loaded<GoalReport> {
    if GOAL_FILE in files && files[GOAL_FILE].GoalFile? then Object(files[GOAL_FILE].goal)
    else if GOAL_FILE in files && files[GOAL_FILE].EmptyObject? then Hollow
    else Refused(WhyNot(files, GOAL_FILE))
  }

  function TemplateIn(files: map<string, File>): Loaded<Template> {
    if TEMPLATE_FILE in files && files[TEMPLATE_FILE].TemplateFile? then Object(files[TEMPLATE_FILE].template)
    else if TEMPLATE_FILE in files && files[TEMPLATE_FILE].EmptyObject? then Hollow
    else Refused(WhyNot(files, TEMPLATE_FILE))
  }

  ghost predicate DeclaresExpected(m: Manifest) {
    (set a | a in m.artifacts) == (set a | a in EXPECTED) == m.hashes.Keys
  }

  /** The text of the plan file; a JSON report in its place has no plan text. */
  function PlanTextIn(file: File): string {
    match file
    case PlanFile(content) => content
    case Unreadable(text) => text
    case NoObject(json) => json
    case EmptyObject => "{}"
    case _ => ""
  }

  predicate ReportAgrees(m: Manifest, report: Report) {
    && report.summary == Summarize(report.checks) && report.passed == AllClear(Summarize(report.checks))
    && report.passed == m.readinessPassed && report.summary == m.readinessSummary
  }

  predicate GoalAgrees(m: Manifest, goal: GoalReport) {
    && goal.goalComplete == m.goalComplete
    && m.goalSummary.missingArtifacts == goal.missingArtifacts && m.goalSummary.remainingBlockers == goal.remainingBlockerCount
    && m.goalSummary.scopePassed == goal.scopePassed && m.goalSummary.scopeReady == goal.scopeReady
    && m.goalSummary.readinessPassed == goal.readinessPassed
    && m.remainingBlockerCount == goal.remainingBlockerCount && m.blockerSummary == goal.blockerSummary
    && multiset(m.remainingBlockers) == multiset(Triples(goal.blockers))
  }

  predicate NothingSummarized(s: BlockerSummary) {
    s.localAction == 0 && s.company == 0 && s.localBlockers == [] && forall k :: k in s.byStatus ==> s.byStatus[k] == 0
  }

  /** A bundle that claims completion claims nothing is left to do. */
  predicate CompletionAgrees(m: Manifest) {
    m.goalComplete ==>
      && m.readinessPassed && m.remainingBlockerCount == 0 && m.remainingBlockers == []
      && m.missingEnv == [] && m.missingEnvCount == 0 && NothingSummarized(m.blockerSummary)
  }

  /** The template names exactly the gates that wait for reviewed evidence. */
  ghost predicate TemplateCovers(report: Report, template: Template) {
    forall id :: id in template.gateIds <==> WaitsForEvidence(report.checks, id)
  }

  predicate WaitsForEvidence(checks: seq<Check>, id: string) {
    exists i :: 0 <= i < |checks| && checks[i].status == ManualRequired && checks[i].checkId == id
  }

  lemma {:induction false} ManualIdsAre(checks: seq<Check>, id: string)
    ensures id in ManualIds(checks) <==> WaitsForEvidence(checks, id)
  {
    if checks != [] {
      var init := checks[..|checks| - 1];
      ManualIdsAre(init, id);
      assert forall i :: 0 <= i < |init| ==> init[i] == checks[i];
    }
  }

  lemma CoversIff(report: Report, template: Template)
    ensures TemplateCovers(report, template) <==> (set id | id in ManualIds(report.checks)) == (set id | id in template.gateIds)
  {
    var expected, covered := set id | id in ManualIds(report.checks), set id | id in template.gateIds;
    forall id ensures id in expected <==> WaitsForEvidence(report.checks, id) { ManualIdsAre(report.checks, id); }
    assert expected == covered <==> forall id :: id in expected <==> id in covered;
    assert forall id :: id in covered <==> id in template.gateIds;
  }

  ghost predicate PlanAgrees(m: Manifest, content: string, commands: seq<string>) {
    && Contains(content, TITLE) && Contains(content, FINAL_VALIDATION)
    && (forall i :: 0 <= i < |commands| ==> Contains(content, commands[i]))
    && m.missingEnv == SortedSet(InLines(NamesIn, content)) && m.missingEnvCount == |SortedSet(InLines(NamesIn, content))|
  }

  ghost predicate ReportsAgree(m: Manifest, report: Report, goal: GoalReport, template: Template) {
    ReportAgrees(m, report) && GoalAgrees(m, goal) && CompletionAgrees(m) && TemplateCovers(report, template)
  }

  ghost predicate FilesMatch(m: Manifest, files: map<string, File>) {
    forall a :: a in EXPECTED ==> a in files && files[a] != PlanFile("") && files[a] != Unreadable("") && a in m.hashes && m.hashes[a] == HashOf(files[a])
  }

  /** What a handoff bundle is meant to be. */
  ghost predicate Consistent(bundle: Bundle, commands: seq<string>) {
    && bundle.manifest.Object?
    && var m, files := bundle.manifest.value, bundle.files;
       && m.schemaVersion == "v1" && DeclaresExpected(m) && FilesMatch(m, files)
       && ReportIn(files).Object? && GoalIn(files).Object? && TemplateIn(files).Object?
       && ReportsAgree(m, ReportIn(files).value, GoalIn(files).value, TemplateIn(files).value)
       && PlanAgrees(m, PlanTextIn(files[PLAN_FILE]), commands)
  }

  // ---- what the validator accepts ----

  predicate FileGood(m: Manifest, files: map<string, File>, a: string) {
    && a in files && files[a] != PlanFile("") && files[a] != Unreadable("")
    && (a in m.hashes && m.hashes[a].HashOf? ==> m.hashes[a] == HashOf(files[a]))
  }

  ghost predicate FilesGood(m: Manifest, files: map<string, File>) {
    forall i :: 0 <= i < |EXPECTED| ==> FileGood(m, files, EXPECTED[i])
  }

  /** An object without fields passes for a report, and switches off every check that would look into it. */
  ghost predicate ReportsTolerated(m: Manifest, report: Loaded<Report>, goal: Loaded<GoalReport>, template: Loaded<Template>) {
    && !report.Refused? && !goal.Refused? && !template.Refused?
    && ContentsTolerated(m, report, goal, template)
  }

  /** What is left of consistency. A manifest without fields passes on its own. */
  ghost predicate Accepted(bundle: Bundle, commands: seq<string>) {
    match bundle.manifest
    case Refused(_) => false
    case Hollow => true
    case Object(m) =>
      && m.schemaVersion == "v1" && DeclaresExpected(m) && FilesGood(m, bundle.files)
      && ReportsTolerated(m, ReportIn(bundle.files), GoalIn(bundle.files), TemplateIn(bundle.files))
      && PLAN_FILE in bundle.files && PlanAgrees(m, PlanTextIn(bundle.files[PLAN_FILE]), commands)
  }

  /** The manifest or a report is the object without fields, or a hash is the empty text. */
  predicate SomethingHollow(bundle: Bundle) {
    || bundle.manifest.Hollow?
    || ReportIn(bundle.files).Hollow? || GoalIn(bundle.files).Hollow? || TemplateIn(bundle.files).Hollow?
    || (bundle.manifest.Object? && exists i :: 0 <= i < |EXPECTED| && EXPECTED[i] in bundle.manifest.value.hashes
                                               && bundle.manifest.value.hashes[EXPECTED[i]].NoHash?)
  }

  lemma FilesMatchIff(m: Manifest, files: map<string, File>)
    requires DeclaresExpected(m)
    ensures FilesMatch(m, files) <==>
            FilesGood(m, files) && forall i :: 0 <= i < |EXPECTED| && EXPECTED[i] in m.hashes ==> !m.hashes[EXPECTED[i]].NoHash?
  {
    assert forall i :: 0 <= i < |EXPECTED| ==> EXPECTED[i] in EXPECTED && EXPECTED[i] in m.hashes.Keys;
  }

  lemma PlanExpected(m: Manifest, files: map<string, File>)
    ensures FilesGood(m, files) ==> PLAN_FILE in files
    ensures FilesMatch(m, files) ==> PLAN_FILE in files
  {
    assert EXPECTED[3] == PLAN_FILE && PLAN_FILE in EXPECTED;
    assert FilesGood(m, files) ==> FileGood(m, files, EXPECTED[3]);
  }

  /** The validator accepts exactly the consistent bundles, and those it accepts for something hollow in them. */
  lemma ConsistentIffAccepted(bundle: Bundle, commands: seq<string>)
    ensures Consistent(bundle, commands) <==> Accepted(bundle, commands) && !SomethingHollow(bundle)
  {
    if bundle.manifest.Object? {
      PlanExpected(bundle.manifest.value, bundle.files);
      if DeclaresExpected(bundle.manifest.value) {
        FilesMatchIff(bundle.manifest.value, bundle.files);
      }
    }
  }

  /** A directory whose manifest is `{}` passes, whatever else is in it. */
  lemma EmptyManifestPasses(files: map<string, File>, commands: seq<string>)
    ensures Accepted(Bundle(Hollow, files), commands) && !Consistent(Bundle(Hollow, files), commands)
  {
  }

  /** With `{}` for its three reports a bundle passes whatever its manifest claims about them. */
  lemma EmptyReportsPass(m: Manifest, files: map<string, File>, commands: seq<string>, readinessPassed: bool, goalComplete: bool,
                         readiness: Summary, goal: GoalSummary, blockers: BlockerSummary, remaining: seq<Triple>)
    requires m.schemaVersion == "v1" && DeclaresExpected(m) && FilesGood(m, files)
    requires PLAN_FILE in files && PlanAgrees(m, PlanTextIn(files[PLAN_FILE]), commands)
    requires ReportIn(files).Hollow? && GoalIn(files).Hollow? && TemplateIn(files).Hollow?
    ensures var claims := m.(readinessPassed := readinessPassed, goalComplete := goalComplete, readinessSummary := readiness,
                             goalSummary := goal, blockerSummary := blockers, remainingBlockerCount := |remaining|,
                             remainingBlockers := remaining);
            Accepted(Bundle(Object(claims), files), commands) && !Consistent(Bundle(Object(claims), files), commands)
  {
    var claims := m.(readinessPassed := readinessPassed, goalComplete := goalComplete, readinessSummary := readiness,
                     goalSummary := goal, blockerSummary := blockers, remainingBlockerCount := |remaining|, remainingBlockers := remaining);
    assert forall a :: FileGood(m, files, a) ==> FileGood(claims, files, a);
  }

  // ---- validating ----

  /** `f"{prefix}{name}"` for each name */
  function Tagged(prefix: string, names: seq<string>): (r: seq<string>)
    ensures |r| == |names|
    ensures forall f :: f in r <==> exists n :: n in names && f == prefix + n
  {
    if names == [] then []
    else
      assert forall n :: n in names <==> n == names[0] || n in names[1..];
      [prefix + names[0]] + Tagged(prefix, names[1..])
  }

  lemma NoneLeft(s: set<string>)
    ensures SortedSet(s) == [] <==> s == {}
  {
    assert SortedSet(s) == [] ==> forall x :: x in s ==> x in SortedSet(s);
  }

  lemma SameIfNoneLeft(a: set<string>, b: set<string>)
    ensures SortedSet(a - b) == [] && SortedSet(b - a) == [] <==> a == b
  {
    NoneLeft(a - b);
    NoneLeft(b - a);
    assert a - b == {} && b - a == {} ==> a == b;
  }

  /** `failures` with those that `fails` names added, in some order. */
  ghost predicate Adds(failures: seq<string>, all: seq<string>, fails: string -> bool) {
    forall f :: f in all <==> f in failures || fails(f)
  }

  /** What is wrong with the declared artifacts and hashes. */
  ghost function WrongDeclarations(m: Manifest): string -> bool {
    (f: string) =>
      || (exists a :: a in EXPECTED && a !in m.artifacts && f == "missing_manifest_artifact:" + a)
      || (exists a :: a in m.artifacts && a !in EXPECTED && f == "unexpected_manifest_artifact:" + a)
      || (exists a :: a in EXPECTED && a !in m.hashes && f == "missing_artifact_hash:" + a)
      || (exists a :: a in m.hashes && a !in EXPECTED && f == "unexpected_artifact_hash:" + a)
  }

  /** The names of one set that are not in another, each with a prefix. */
  method TagMissing(prefix: string, wanted: set<string>, there: set<string>, failures: seq<string>) returns (all: seq<string>)
    ensures all == failures + Tagged(prefix, SortedSet(wanted - there))
    ensures forall f :: f in all <==> f in failures || exists a :: a in wanted && a !in there && f == prefix + a
  {
    all := failures + Tagged(prefix, SortedSet(wanted - there));
    assert forall a :: a in SortedSet(wanted - there) <==> a in wanted && a !in there;
  }

  method ValidateDeclarations(m: Manifest, failures: seq<string>) returns (all: seq<string>)
    ensures all == [] <==> failures == [] && DeclaresExpected(m)
    ensures Adds(failures, all, WrongDeclarations(m))
  {
    var declared, expected := set a | a in m.artifacts, set a | a in EXPECTED;
    var first := TagMissing("missing_manifest_artifact:", expected, declared, failures);
    var second := TagMissing("unexpected_manifest_artifact:", declared, expected, first);
    var third := TagMissing("missing_artifact_hash:", expected, m.hashes.Keys, second);
    all := TagMissing("unexpected_artifact_hash:", m.hashes.Keys, expected, third);
    NothingTagged(declared, expected, m.hashes.Keys);
    DeclarationsAdd(m, declared, expected, failures, first, second, third, all);
  }

  lemma NothingTagged(declared: set<string>, expected: set<string>, hashed: set<string>)
    ensures |SortedSet(expected - declared)| + |SortedSet(declared - expected)| + |SortedSet(expected - hashed)| + |SortedSet(hashed - expected)| == 0
            <==> declared == expected == hashed
  {
    SameIfNoneLeft(declared, expected);
    SameIfNoneLeft(hashed, expected);
  }

  lemma DeclarationsAdd(m: Manifest, declared: set<string>, expected: set<string>, failures: seq<string>, first: seq<string>,
                        second: seq<string>, third: seq<string>, all: seq<string>)
    requires forall a :: a in declared <==> a in m.artifacts
    requires forall a :: a in expected <==> a in EXPECTED
    requires forall f :: f in first <==> f in failures || exists a :: a in expected && a !in declared && f == "missing_manifest_artifact:" + a
    requires forall f :: f in second <==> f in first || exists a :: a in declared && a !in expected && f == "unexpected_manifest_artifact:" + a
    requires forall f :: f in third <==> f in second || exists a :: a in expected && a !in m.hashes.Keys && f == "missing_artifact_hash:" + a
    requires forall f :: f in all <==> f in third || exists a :: a in m.hashes.Keys && a !in expected && f == "unexpected_artifact_hash:" + a
    ensures Adds(failures, all, WrongDeclarations(m))
  {
    forall f ensures f in all <==> f in failures || WrongDeclarations(m)(f) {
      assert f in first <==> f in failures || exists a :: a in EXPECTED && a !in m.artifacts && f == "missing_manifest_artifact:" + a;
      assert f in second <==> f in first || exists a :: a in m.artifacts && a !in EXPECTED && f == "unexpected_manifest_artifact:" + a;
      assert f in third <==> f in second || exists a :: a in EXPECTED && a !in m.hashes && f == "missing_artifact_hash:" + a;
      assert f in all <==> f in third || exists a :: a in m.hashes && a !in EXPECTED && f == "unexpected_artifact_hash:" + a;
    }
  }

  /** What is wrong with one file: it is missing, or it is empty, or it is not what was hashed. */
  predicate WrongFile(m: Manifest, files: map<string, File>, a: string, f: string) {
    if a !in files then f == "missing_artifact:" + a
    else
      || (Empty(files[a]) && f == "empty_artifact:" + a)
      || (a in m.hashes && m.hashes[a].HashOf? && m.hashes[a] != HashOf(files[a]) && f == "artifact_hash_mismatch:" + a)
  }

  ghost function WrongFiles(m: Manifest, files: map<string, File>): string -> bool {
    (f: string) => exists i :: 0 <= i < |EXPECTED| && WrongFile(m, files, EXPECTED[i], f)
  }

  method ValidateFile(m: Manifest, files: map<string, File>, artifact: string, failures: seq<string>) returns (all: seq<string>)
    ensures all == [] <==> failures == [] && FileGood(m, files, artifact)
    ensures forall f :: f in all <==> f in failures || WrongFile(m, files, artifact, f)
  {
    all := failures;
    if artifact !in files {
      return all + ["missing_artifact:" + artifact];
    }
    if Empty(files[artifact]) {
      all := all + ["empty_artifact:" + artifact];
    }
    if artifact in m.hashes && m.hashes[artifact].HashOf? && m.hashes[artifact] != HashOf(files[artifact]) {
      all := all + ["artifact_hash_mismatch:" + artifact];
    }
  }

  method ValidateFiles(m: Manifest, files: map<string, File>, failures: seq<string>) returns (all: seq<string>)
    ensures all == [] <==> failures == [] && FilesGood(m, files)
    ensures Adds(failures, all, WrongFiles(m, files))
  {
    all := failures;
    var expected := EXPECTED;
    for i := 0 to |expected|
      invariant all == [] <==> failures == [] && forall j :: 0 <= j < i ==> FileGood(m, files, expected[j])
      invariant forall f :: f in all <==> f in failures || exists j :: 0 <= j < i && WrongFile(m, files, expected[j], f)
    {
      all := ValidateFile(m, files, expected[i], all);
    }
  }

  ghost function WrongReport(m: Manifest, report: Report): string -> bool {
    (f: string) =>
      || (report.summary != Summarize(report.checks) && f == "readiness_summary_internal_mismatch")
      || (report.passed != AllClear(Summarize(report.checks)) && f == "readiness_passed_internal_mismatch")
      || (report.passed != m.readinessPassed && f == "readiness_passed_mismatch")
      || (report.summary != m.readinessSummary && f == "readiness_summary_mismatch")
  }

  method ValidateReport(m: Manifest, report: Report, failures: seq<string>) returns (all: seq<string>)
    ensures all == [] <==> failures == [] && ReportAgrees(m, report)
    ensures Adds(failures, all, WrongReport(m, report))
  {
    all := failures;
    var expected := SummarizeChecks(report.checks);
    if report.summary != expected {
      all := all + ["readiness_summary_internal_mismatch"];
    }
    if report.passed != AllClear(expected) {
      all := all + ["readiness_passed_internal_mismatch"];
    }
    if report.passed != m.readinessPassed {
      all := all + ["readiness_passed_mismatch"];
    }
    if report.summary != m.readinessSummary {
      all := all + ["readiness_summary_mismatch"];
    }
  }

  ghost function WrongGoal(m: Manifest, goal: GoalReport): string -> bool {
    (f: string) =>
      || (goal.goalComplete != m.goalComplete && f == "goal_complete_mismatch")
      || (SummaryOfGoal(goal) != m.goalSummary && f == "goal_summary_mismatch")
      || WrongBlockers(m, goal)(f)
  }

  ghost function WrongBlockers(m: Manifest, goal: GoalReport): string -> bool {
    (f: string) =>
      || (m.remainingBlockerCount != goal.remainingBlockerCount && f == "remaining_blocker_count_mismatch")
      || (m.blockerSummary != goal.blockerSummary && f == "blocker_summary_mismatch")
      || (multiset(m.remainingBlockers) != multiset(Triples(goal.blockers)) && f == "remaining_blockers_mismatch")
  }

  ghost predicate BlockersAgree(m: Manifest, goal: GoalReport) {
    && m.remainingBlockerCount == goal.remainingBlockerCount && m.blockerSummary == goal.blockerSummary
    && multiset(m.remainingBlockers) == multiset(Triples(goal.blockers))
  }

  /** The fingerprints are sorted lists of triples: equal exactly when the triples are the same as a multiset. */
  method ValidateBlockers(m: Manifest, goal: GoalReport, failures: seq<string>) returns (all: seq<string>)
    ensures all == [] <==> failures == [] && BlockersAgree(m, goal)
    ensures Adds(failures, all, WrongBlockers(m, goal))
  {
    all := failures;
    if m.remainingBlockerCount != goal.remainingBlockerCount {
      all := all + ["remaining_blocker_count_mismatch"];
    }
    if m.blockerSummary != goal.blockerSummary {
      all := all + ["blocker_summary_mismatch"];
    }
    if multiset(m.remainingBlockers) != multiset(Triples(goal.blockers)) {
      all := all + ["remaining_blockers_mismatch"];
    }
  }

  method ValidateGoal(m: Manifest, goal: GoalReport, failures: seq<string>) returns (all: seq<string>)
    ensures all == [] <==> failures == [] && GoalAgrees(m, goal)
    ensures Adds(failures, all, WrongGoal(m, goal))
  {
    all := failures;
    if goal.goalComplete != m.goalComplete {
      all := all + ["goal_complete_mismatch"];
    }
    if SummaryOfGoal(goal) != m.goalSummary {
      all := all + ["goal_summary_mismatch"];
    }
    all := ValidateBlockers(m, goal, all);
  }

  ghost function WrongCompletion(m: Manifest): string -> bool {
    (f: string) =>
      m.goalComplete &&
      ((!m.readinessPassed && f == "complete_bundle_readiness_not_passed")
       || (m.remainingBlockerCount != 0 && f == "complete_bundle_has_remaining_blockers")
       || (m.remainingBlockers != [] && f == "complete_bundle_has_remaining_blocker_list")
       || ((m.missingEnv != [] || m.missingEnvCount != 0) && f == "complete_bundle_has_missing_env")
       || (!NothingSummarized(m.blockerSummary) && f == "complete_bundle_has_blocker_summary"))
  }

  method ValidateCompletion(m: Manifest, failures: seq<string>) returns (all: seq<string>)
    ensures all == [] <==> failures == [] && CompletionAgrees(m)
    ensures Adds(failures, all, WrongCompletion(m))
  {
    all := failures;
    if !m.goalComplete {
      return;
    }
    if !m.readinessPassed {
      all := all + ["complete_bundle_readiness_not_passed"];
    }
    if m.remainingBlockerCount != 0 {
      all := all + ["complete_bundle_has_remaining_blockers"];
    }
    if m.remainingBlockers != [] {
      all := all + ["complete_bundle_has_remaining_blocker_list"];
    }
    if m.missingEnv != [] || m.missingEnvCount != 0 {
      all := all + ["complete_bundle_has_missing_env"];
    }
    if !NothingSummarized(m.blockerSummary) {
      all := all + ["complete_bundle_has_blocker_summary"];
    }
  }

  ghost function WrongTemplate(report: Report, template: Template): string -> bool {
    (f: string) =>
      || (exists id :: WaitsForEvidence(report.checks, id) && id !in template.gateIds && f == "manual_template_missing_gate:" + id)
      || (exists id :: id in template.gateIds && !WaitsForEvidence(report.checks, id) && f == "manual_template_unexpected_gate:" + id)
  }

  method ValidateTemplate(report: Report, template: Template, failures: seq<string>) returns (all: seq<string>)
    ensures all == [] <==> failures == [] && TemplateCovers(report, template)
    ensures Adds(failures, all, WrongTemplate(report, template))
  {
    var expected, covered := set id | id in ManualIds(report.checks), set id | id in template.gateIds;
    var first := TagMissing("manual_template_missing_gate:", expected, covered, failures);
    all := TagMissing("manual_template_unexpected_gate:", covered, expected, first);
    SameIfNoneLeft(expected, covered);
    CoversIff(report, template);
    TemplateAdds(report, template, expected, covered, failures, first, all);
  }

  lemma TemplateAdds(report: Report, template: Template, expected: set<string>, covered: set<string>, failures: seq<string>,
                     first: seq<string>, all: seq<string>)
    requires forall id :: id in expected <==> id in ManualIds(report.checks)
    requires forall id :: id in covered <==> id in template.gateIds
    requires forall f :: f in first <==> f in failures || exists a :: a in expected && a !in covered && f == "manual_template_missing_gate:" + a
    requires forall f :: f in all <==> f in first || exists a :: a in covered && a !in expected && f == "manual_template_unexpected_gate:" + a
    ensures Adds(failures, all, WrongTemplate(report, template))
  {
    forall id ensures id in expected <==> WaitsForEvidence(report.checks, id) { ManualIdsAre(report.checks, id); }
    forall f ensures f in all <==> f in failures || WrongTemplate(report, template)(f) {
      assert f in first <==> f in failures || exists id :: WaitsForEvidence(report.checks, id) && id !in template.gateIds
                                                           && f == "manual_template_missing_gate:" + id;
      assert f in all <==> f in first || exists id :: id in template.gateIds && !WaitsForEvidence(report.checks, id)
                                                      && f == "manual_template_unexpected_gate:" + id;
    }
  }

  ghost predicate CommandMissing(content: string, command: string, f: string) {
    !Contains(content, command) && f == "staging_evidence_plan_missing:" + command
  }

  method ValidateCommands(content: string, commands: seq<string>, failures: seq<string>) returns (all: seq<string>)
    ensures all == [] <==> failures == [] && forall i :: 0 <= i < |commands| ==> Contains(content, commands[i])
    ensures forall f :: f in all <==> f in failures || exists i :: 0 <= i < |commands| && CommandMissing(content, commands[i], f)
  {
    all := failures;
    for i := 0 to |commands|
      invariant all == [] <==> failures == [] && forall j :: 0 <= j < i ==> Contains(content, commands[j])
      invariant forall f :: f in all <==> f in failures || exists j :: 0 <= j < i && CommandMissing(content, commands[j], f)
    {
      if !Contains(content, commands[i]) {
        all := all + ["staging_evidence_plan_missing:" + commands[i]];
      }
    }
  }

  ghost function WrongNames(m: Manifest, content: string): string -> bool {
    (f: string) =>
      || (m.missingEnv != SortedSet(InLines(NamesIn, content)) && f == "missing_env_mismatch")
      || (m.missingEnvCount != |SortedSet(InLines(NamesIn, content))| && f == "missing_env_count_mismatch")
  }

  ghost function WrongPlan(m: Manifest, content: string, commands: seq<string>): string -> bool {
    (f: string) =>
      || (!Contains(content, "# Staging Evidence Collection Plan") && f == "staging_evidence_plan_heading_missing")
      || (exists i :: 0 <= i < |commands| && CommandMissing(content, commands[i], f))
      || (!Contains(content, "## Final Validation") && f == "staging_evidence_plan_final_validation_missing")
      || WrongNames(m, content)(f)
  }

  method ValidateMissingEnv(m: Manifest, content: string, failures: seq<string>) returns (all: seq<string>)
    ensures all == [] <==>
            && failures == [] && m.missingEnv == SortedSet(InLines(NamesIn, content))
            && m.missingEnvCount == |SortedSet(InLines(NamesIn, content))|
    ensures Adds(failures, all, WrongNames(m, content))
  {
    all := failures;
    var expected := MissingEnvFromStagingPlan(content);
    if m.missingEnv != expected {
      all := all + ["missing_env_mismatch"];
    }
    if m.missingEnvCount != |expected| {
      all := all + ["missing_env_count_mismatch"];
    }
  }

  method ValidatePlan(m: Manifest, content: string, commands: seq<string>, failures: seq<string>) returns (all: seq<string>)
    ensures all == [] <==> failures == [] && PlanAgrees(m, content, commands)
    ensures Adds(failures, all, WrongPlan(m, content, commands))
  {
    all := failures;
    if !Contains(content, TITLE) {
      all := all + ["staging_evidence_plan_heading_missing"];
    }
    all := ValidateCommands(content, commands, all);
    if !Contains(content, FINAL_VALIDATION) {
      all := all + ["staging_evidence_plan_final_validation_missing"];
    }
    all := ValidateMissingEnv(m, content, all);
  }

  /** The failure of `_load_json` for the file of this name. */
  function RefusalOf(why: Refusal, name: string): string {
    Kind(why) + name
  }

  function Kind(why: Refusal): string {
    match why
    case Missing => "missing_json:"
    case Invalid => "invalid_json:"
    case NotObject => "json_not_object:"
  }

  /** The same, told failure by failure. */
  ghost predicate Refuses(why: Refusal, name: string, f: string) {
    || (why == Missing && f == "missing_json:" + name)
    || (why == Invalid && f == "invalid_json:" + name)
    || (why == NotObject && f == "json_not_object:" + name)
  }

  lemma RefusesIff(why: Refusal, name: string, f: string)
    ensures Refuses(why, name, f) <==> f == RefusalOf(why, name)
  {
  }

  ghost predicate LoadFails(report: Loaded<Report>, goal: Loaded<GoalReport>, template: Loaded<Template>, f: string) {
    || (report.Refused? && Refuses(report.why, "production-readiness-report", f))
    || (goal.Refused? && Refuses(goal.why, "goal-completion-report", f))
    || (template.Refused? && Refuses(template.why, "manual-evidence-template", f))
  }

  ghost predicate ReportFails(m: Manifest, report: Loaded<Report>, f: string) {
    report.Object? && WrongReport(m, report.value)(f)
  }

  ghost predicate GoalFails(m: Manifest, goal: Loaded<GoalReport>, f: string) {
    goal.Object? && (WrongGoal(m, goal.value)(f) || WrongCompletion(m)(f))
  }

  ghost predicate TemplateFails(report: Loaded<Report>, template: Loaded<Template>, f: string) {
    report.Object? && template.Object? && WrongTemplate(report.value, template.value)(f)
  }

  ghost predicate ContentsFail(m: Manifest, report: Loaded<Report>, goal: Loaded<GoalReport>, template: Loaded<Template>, f: string) {
    ReportFails(m, report, f) || GoalFails(m, goal, f) || TemplateFails(report, template, f)
  }

  ghost predicate ContentsTolerated(m: Manifest, report: Loaded<Report>, goal: Loaded<GoalReport>, template: Loaded<Template>) {
    && (report.Object? ==> ReportAgrees(m, report.value))
    && (goal.Object? ==> GoalAgrees(m, goal.value) && CompletionAgrees(m))
    && (report.Object? && template.Object? ==> TemplateCovers(report.value, template.value))
  }

  ghost function WrongReports(m: Manifest, report: Loaded<Report>, goal: Loaded<GoalReport>, template: Loaded<Template>): string -> bool {
    (f: string) =>
      LoadFails(report, goal, template, f) || ContentsFail(m, report, goal, template, f)
  }

  method LoadFailures(report: Loaded<Report>, goal: Loaded<GoalReport>, template: Loaded<Template>, failures: seq<string>)
    returns (all: seq<string>)
    ensures all == [] <==> failures == [] && !report.Refused? && !goal.Refused? && !template.Refused?
    ensures forall f :: f in all <==> f in failures || LoadFails(report, goal, template, f)
  {
    forall why, name, f ensures Refuses(why, name, f) <==> f == RefusalOf(why, name) { RefusesIff(why, name, f); }
    all := failures;
    if report.Refused? {
      all := all + [RefusalOf(report.why, "production-readiness-report")];
    }
    if goal.Refused? {
      all := all + [RefusalOf(goal.why, "goal-completion-report")];
    }
    if template.Refused? {
      all := all + [RefusalOf(template.why, "manual-evidence-template")];
    }
  }

  method ValidateGoalReport(m: Manifest, goal: GoalReport, failures: seq<string>) returns (all: seq<string>)
    ensures all == [] <==> failures == [] && GoalAgrees(m, goal) && CompletionAgrees(m)
    ensures forall f :: f in all <==> f in failures || WrongGoal(m, goal)(f) || WrongCompletion(m)(f)
  {
    all := ValidateGoal(m, goal, failures);
    all := ValidateCompletion(m, all);
  }

  method ValidateLoaded(m: Manifest, report: Loaded<Report>, failures: seq<string>) returns (all: seq<string>)
    ensures all == [] <==> failures == [] && (report.Object? ==> ReportAgrees(m, report.value))
    ensures forall f :: f in all <==> f in failures || ReportFails(m, report, f)
  {
    all := failures;
    if report.Object? {
      all := ValidateReport(m, report.value, all);
    }
  }

  method ValidateLoadedGoal(m: Manifest, goal: Loaded<GoalReport>, failures: seq<string>) returns (all: seq<string>)
    ensures all == [] <==> failures == [] && (goal.Object? ==> GoalAgrees(m, goal.value) && CompletionAgrees(m))
    ensures forall f :: f in all <==> f in failures || GoalFails(m, goal, f)
  {
    all := failures;
    if goal.Object? {
      all := ValidateGoalReport(m, goal.value, all);
    }
  }

  method ValidateLoadedTemplate(report: Loaded<Report>, template: Loaded<Template>, failures: seq<string>) returns (all: seq<string>)
    ensures all == [] <==> failures == [] && (report.Object? && template.Object? ==> TemplateCovers(report.value, template.value))
    ensures forall f :: f in all <==> f in failures || TemplateFails(report, template, f)
  {
    all := failures;
    if report.Object? && template.Object? {
      all := ValidateTemplate(report.value, template.value, all);
    }
  }

  method ValidateContents(m: Manifest, report: Loaded<Report>, goal: Loaded<GoalReport>, template: Loaded<Template>, failures: seq<string>)
    returns (all: seq<string>)
    ensures all == [] <==> failures == [] && ContentsTolerated(m, report, goal, template)
    ensures forall f :: f in all <==> f in failures || ContentsFail(m, report, goal, template, f)
  {
    all := ValidateLoaded(m, report, failures);
    all := ValidateLoadedGoal(m, goal, all);
    all := ValidateLoadedTemplate(report, template, all);
  }

  method ValidateReports(m: Manifest, report: Loaded<Report>, goal: Loaded<GoalReport>, template: Loaded<Template>, failures: seq<string>)
    returns (all: seq<string>)
    ensures all == [] <==> failures == [] && ReportsTolerated(m, report, goal, template)
    ensures Adds(failures, all, WrongReports(m, report, goal, template))
  {
    all := LoadFailures(report, goal, template, failures);
    all := ValidateContents(m, report, goal, template, all);
  }

  /** What is wrong with a bundle whose manifest is an object. */
  ghost function WrongBundle(m: Manifest, files: map<string, File>, commands: seq<string>): string -> bool {
    (f: string) =>
      || (m.schemaVersion != "v1" && f == "manifest_schema_version_not_v1")
      || WrongDeclarations(m)(f) || WrongFiles(m, files)(f)
      || WrongReports(m, ReportIn(files), GoalIn(files), TemplateIn(files))(f)
      || (PLAN_FILE in files && WrongPlan(m, PlanTextIn(files[PLAN_FILE]), commands)(f))
  }

  /** `validate_handoff_bundle`: exactly the failures the bundle has. There are none exactly for what `Accepted` says, which is a
      consistent bundle unless something in it is hollow. */
  method ValidateHandoffBundle(bundle: Bundle, commands: seq<string>) returns (failures: seq<string>)
    ensures failures == [] <==> Accepted(bundle, commands)
    ensures !SomethingHollow(bundle) ==> (failures == [] <==> Consistent(bundle, commands))
    ensures bundle.manifest.Refused? ==> forall f :: f in failures <==> Refuses(bundle.manifest.why, "manifest", f)
    ensures bundle.manifest.Object? ==> forall f :: f in failures <==> WrongBundle(bundle.manifest.value, bundle.files, commands)(f)
  {
    ConsistentIffAccepted(bundle, commands);
    if bundle.manifest.Refused? {
      forall f ensures Refuses(bundle.manifest.why, "manifest", f) <==> f == RefusalOf(bundle.manifest.why, "manifest") {
        RefusesIff(bundle.manifest.why, "manifest", f);
      }
      return [RefusalOf(bundle.manifest.why, "manifest")];
    }
    if bundle.manifest.Hollow? {
      return [];
    }
    failures := ValidateObject(bundle.manifest.value, bundle.files, commands);
  }

  method ValidateObject(m: Manifest, files: map<string, File>, commands: seq<string>) returns (failures: seq<string>)
    ensures failures == [] <==> Accepted(Bundle(Object(m), files), commands)
    ensures forall f :: f in failures <==> WrongBundle(m, files, commands)(f)
  {
    PlanExpected(m, files);
    failures := if m.schemaVersion != "v1" then ["manifest_schema_version_not_v1"] else [];
    failures := ValidateDeclarations(m, failures);
    failures := ValidateFiles(m, files, failures);
    failures := ValidateReports(m, ReportIn(files), GoalIn(files), TemplateIn(files), failures);
    if PLAN_FILE in files {
      failures := ValidatePlan(m, PlanTextIn(files[PLAN_FILE]), commands, failures);
    }
  }

  // ---- the builder's bundles ----

  /** Nothing the audit claims complete is left open in the report or in the plan. */
  predicate ClaimsAgree(setting: Setting, planGates: seq<Check>, reportGates: seq<Check>, auditGates: seq<Check>, manual: seq<ManualEvidence>) {
    GoalOf(setting, auditGates, manual).goalComplete ==>
      ReportOn(reportGates, manual).passed && PlanOf(setting, planGates, manual).missingEnv == []
  }

  lemma NothingToSummarize(goal: GoalReport, scope: Scope, report: Report, missing: seq<(string, string)>)
    requires goal == GoalFor(scope, report, missing) && goal.goalComplete
    ensures goal.blockers == [] && goal.remainingBlockerCount == 0 && NothingSummarized(goal.blockerSummary)
  {
    assert LocalIds([]) == [] && ByStatus([]) == map[];
    assert goal.blockerSummary == SummaryOf([]);
  }

  lemma ContentNotEmpty(plan: Plan)
    ensures PlanContent(plan) != ""
  {
    assert PlanContent(plan)[|PlanContent(plan)| - 1] == '\n';
  }

  lemma NamesApart()
    ensures PLAN_FILE != TEMPLATE_FILE && PLAN_FILE != READINESS_FILE && PLAN_FILE != GOAL_FILE
    ensures TEMPLATE_FILE != READINESS_FILE && TEMPLATE_FILE != GOAL_FILE && READINESS_FILE != GOAL_FILE
  {
    assert |PLAN_FILE| == 24 && |TEMPLATE_FILE| == 29 && |READINESS_FILE| == 32 && |GOAL_FILE| == 27;
  }

  lemma ExpectedNames(a: string)
    ensures a in EXPECTED <==> a == GOAL_FILE || a == TEMPLATE_FILE || a == READINESS_FILE || a == PLAN_FILE
  {
    assert EXPECTED[0] == GOAL_FILE && EXPECTED[1] == TEMPLATE_FILE && EXPECTED[2] == READINESS_FILE && EXPECTED[3] == PLAN_FILE;
  }

  lemma WrittenFiles(plan: Plan, report: Report, goal: GoalReport)
    ensures var files := FilesFor(plan, report, goal);
            && PLAN_FILE in files && files[PLAN_FILE] == PlanFile(PlanContent(plan))
            && ReportIn(files) == Object(report) && GoalIn(files) == Object(goal) && TemplateIn(files) == Object(TemplateFor(report))
  {
    NamesApart();
  }

  lemma WrittenHashes(plan: Plan, report: Report, goal: GoalReport, a: string)
    ensures a in FilesFor(plan, report, goal) <==> a in EXPECTED
    ensures a in HashesFor(plan, report, goal) <==> a in EXPECTED
    ensures a in EXPECTED ==> HashesFor(plan, report, goal)[a] == HashOf(FilesFor(plan, report, goal)[a])
    ensures a in EXPECTED ==> !Empty(FilesFor(plan, report, goal)[a])
  {
    ExpectedNames(a);
    ContentNotEmpty(plan);
  }

  lemma BuiltFiles(plan: Plan, report: Report, goal: GoalReport)
    ensures DeclaresExpected(ManifestFor(plan, report, goal)) && FilesMatch(ManifestFor(plan, report, goal), FilesFor(plan, report, goal))
  {
    forall a ensures a in HashesFor(plan, report, goal) <==> a in EXPECTED { WrittenHashes(plan, report, goal, a); }
    forall a | a in EXPECTED
      ensures a in FilesFor(plan, report, goal) && !Empty(FilesFor(plan, report, goal)[a])
              && HashesFor(plan, report, goal)[a] == HashOf(FilesFor(plan, report, goal)[a])
    {
      WrittenHashes(plan, report, goal, a);
    }
  }

  /** The bundle of some plan and reports is accepted exactly when it is consistent: when these agree with its manifest. */
  lemma BundleAgrees(plan: Plan, report: Report, goal: GoalReport, commands: seq<string>)
    ensures var bundle := Bundle(Object(ManifestFor(plan, report, goal)), FilesFor(plan, report, goal));
            && !SomethingHollow(bundle)
            && (Consistent(bundle, commands) <==>
                  && ReportsAgree(ManifestFor(plan, report, goal), report, goal, TemplateFor(report))
                  && PlanAgrees(ManifestFor(plan, report, goal), PlanContent(plan), commands))
  {
    WrittenFiles(plan, report, goal);
    BuiltFiles(plan, report, goal);
    FilesMatchIff(ManifestFor(plan, report, goal), FilesFor(plan, report, goal));
  }

  ghost predicate OwnSummary(report: Report) {
    report.summary == Summarize(report.checks) && report.passed == AllClear(Summarize(report.checks))
  }

  lemma ManifestReports(plan: Plan, report: Report, goal: GoalReport)
    requires OwnSummary(report)
    requires goal.goalComplete ==> goal.blockers == [] && goal.remainingBlockerCount == 0 && NothingSummarized(goal.blockerSummary)
    ensures ReportsAgree(ManifestFor(plan, report, goal), report, goal, TemplateFor(report)) <==>
            (goal.goalComplete ==> report.passed && plan.missingEnv == [])
  {
    CoversIff(report, TemplateFor(report));
  }

  lemma BuiltReports(setting: Setting, planGates: seq<Check>, reportGates: seq<Check>, auditGates: seq<Check>, manual: seq<ManualEvidence>)
    ensures var plan, report, goal := PlanOf(setting, planGates, manual), ReportOn(reportGates, manual), GoalOf(setting, auditGates, manual);
            ReportsAgree(ManifestFor(plan, report, goal), report, goal, TemplateFor(report)) <==>
            ClaimsAgree(setting, planGates, reportGates, auditGates, manual)
  {
    var plan, report, goal := PlanOf(setting, planGates, manual), ReportOn(reportGates, manual), GoalOf(setting, auditGates, manual);
    if goal.goalComplete {
      NothingToSummarize(goal, setting.scope, ReportOn(auditGates, manual), setting.missing);
    }
    ManifestReports(plan, report, goal);
  }

  lemma BuiltPlan(plan: Plan, report: Report, goal: GoalReport)
    requires QuietElsewhere(plan) && plan.missingEnv == SortedSet(AllMissing(plan.gates))
    ensures PlanAgrees(ManifestFor(plan, report, goal), PlanContent(plan), plan.commands) <==> AllPrintable(plan.gates) && NoneIsSeen(plan.gates)
  {
    RoundTripIff(plan);
    PlanHasHeadings(plan);
    forall i | 0 <= i < |plan.commands| ensures Contains(PlanContent(plan), plan.commands[i]) {
      PlanHasCommand(plan, i);
    }
  }

  /** For any gates and evidence whose other texts never look like a missing-name line, the validator accepts the bundle exactly when every missing
      name can be printed and read back, and the three evaluations of the gates do not contradict each other. */
  lemma BuiltBundleConsistentIff(setting: Setting, planGates: seq<Check>, reportGates: seq<Check>, auditGates: seq<Check>,
                                 manual: seq<ManualEvidence>)
    requires QuietElsewhere(PlanOf(setting, planGates, manual))
    ensures Consistent(BundleFor(setting, planGates, reportGates, auditGates, manual), setting.commands) <==>
            && AllPrintable(PlanOf(setting, planGates, manual).gates) && NoneIsSeen(PlanOf(setting, planGates, manual).gates)
            && ClaimsAgree(setting, planGates, reportGates, auditGates, manual)
    ensures Accepted(BundleFor(setting, planGates, reportGates, auditGates, manual), setting.commands) <==>
            Consistent(BundleFor(setting, planGates, reportGates, auditGates, manual), setting.commands)
  {
    ConsistentIffAccepted(BundleFor(setting, planGates, reportGates, auditGates, manual), setting.commands);
    var plan, report, goal := PlanOf(setting, planGates, manual), ReportOn(reportGates, manual), GoalOf(setting, auditGates, manual);
    BundleAgrees(plan, report, goal, setting.commands);
    BuiltReports(setting, planGates, reportGates, auditGates, manual);
    BuiltPlan(plan, report, goal);
  }

  lemma {:induction false} PassedPlansNothing(checks: seq<Check>, table: map<string, Guidance>)
    requires AllPassed(checks)
    ensures GatePlans(checks, table) == []
  {
    if checks != [] {
      PassedPlansNothing(checks[1..], table);
    }
  }

  /** When the gates are evaluated alike each time, as they are unless local gates are run, the claims agree. */
  lemma SameGatesAgree(setting: Setting, gates: seq<Check>, manual: seq<ManualEvidence>)
    ensures ClaimsAgree(setting, gates, gates, gates, manual)
  {
    var report := ReportOn(gates, manual);
    if report.passed {
      ClearIffAllPassed(report.checks);
      PassedPlansNothing(report.checks, setting.table);
      assert AllMissing([]) == {};
      assert SortedSet({}) == [];
    }
  }

  /** Then the validator accepts every bundle whose missing names can be printed and read back. */
  lemma SameGatesBundleConsistent(setting: Setting, gates: seq<Check>, manual: seq<ManualEvidence>)
    requires QuietElsewhere(PlanOf(setting, gates, manual))
    ensures Accepted(BundleFor(setting, gates, gates, gates, manual), setting.commands) <==>
            AllPrintable(PlanOf(setting, gates, manual).gates) && NoneIsSeen(PlanOf(setting, gates, manual).gates)
  {
    BuiltBundleConsistentIff(setting, gates, gates, gates, manual);
    SameGatesAgree(setting, gates, manual);
  }

  lemma FailedGateFailsReport(gates: seq<Check>, failing: Check, manual: seq<ManualEvidence>)
    requires failing.status == Failed
    ensures !ReportOn(gates + [failing], manual).passed
  {
    ReportPassesIff(gates + [failing], manual);
    assert (gates + [failing])[|gates|] == failing && !GatePasses(failing, manual);
  }

  /** The local gates fail for the plan and the report, and pass for an audit that then finds the goal complete: the builder writes
      a bundle the validator refuses. */
  lemma LocalGatesMayDisagree(setting: Setting, gates: seq<Check>, failing: Check, passing: Check, manual: seq<ManualEvidence>)
    requires failing.status == Failed && GoalOf(setting, gates + [passing], manual).goalComplete
    ensures !Accepted(BundleFor(setting, gates + [failing], gates + [failing], gates + [passing], manual), setting.commands)
  {
    var failed, passed := gates + [failing], gates + [passing];
    FailedGateFailsReport(gates, failing, manual);
    assert !ClaimsAgree(setting, failed, failed, passed, manual);
    BuiltReports(setting, failed, failed, passed, manual);
    BundleAgrees(PlanOf(setting, failed, manual), ReportOn(failed, manual), GoalOf(setting, passed, manual), setting.commands);
    ConsistentIffAccepted(BundleFor(setting, failed, failed, passed, manual), setting.commands);
  }
}
