/** The staging evidence plan: the unresolved readiness gates with the environment names they miss, rendered as Markdown. */
module StagingPlan {
  import opened PlanText
  import opened Readiness
  import opened Text

  // ---- missing names ----

  function EqualsAt(s: string): (at: nat)
    ensures at <= |s| && (at < |s| ==> s[at] == '=')
    ensures forall i :: 0 <= i < at ==> s[i] != '='
  {
    if s == "" || s[0] == '=' then 0 else 1 + EqualsAt(s[1..])
  }

  const UNSET := "<unset>"

  /** The key of an evidence line `KEY=<unset>`. */
  function UnsetKey(value: string): set<string> {
    var at := EqualsAt(value);
    if at < |value| && value[at + 1..] == UNSET && at > 0 then {value[..at]} else {}
  }

  /** `_missing_env_from_evidence` */
  method MissingEnvFromEvidence(evidence: seq<string>) returns (missing: seq<string>)
    ensures missing == SortedSet(Collect(UnsetKey, evidence))
    ensures Ascending(missing) && forall name :: name in missing <==> name in Collect(UnsetKey, evidence)
  {
    var all := {};
    for i := 0 to |evidence|
      invariant all == Collect(UnsetKey, evidence[..i])
    {
      CollectTake(UnsetKey, evidence, i);
      all := AddUnset(all, evidence[i]);
    }
    assert evidence[..|evidence|] == evidence;
    SortedSetAscends(all);
    missing := SortedSet(all);
  }

  method AddUnset(all: set<string>, value: string) returns (more: set<string>)
    ensures more == all + UnsetKey(value)
  {
    more := all;
    var at := EqualsAt(value);
    if at < |value| && value[at + 1..] == UNSET && at > 0 {
      more := more + {value[..at]};
    }
  }

  /** A key as the gates use them. */
  predicate EnvKey(key: string) {
    key != "" && forall i :: 0 <= i < |key| ==> key[i] != '='
  }

  lemma {:induction false} EqualsAtIs(s: string, at: nat)
    requires at < |s| && s[at] == '=' && forall i :: 0 <= i < at ==> s[i] != '='
    ensures EqualsAt(s) == at
  {
    if at > 0 {
      EqualsAtIs(s[1..], at - 1);
    }
  }

  lemma UnsetKeyOf(key: string, value: string)
    requires EnvKey(key)
    ensures UnsetKey(key + "=" + value) == if value == UNSET then {key} else {}
  {
    var s := key + "=" + value;
    EqualsAtIs(s, |key|);
    assert s[..|key|] == key && s[|key| + 1..] == value;
  }

  function UnsetOf(env: map<string, string>, keys: seq<string>): set<string> {
    set i | 0 <= i < |keys| && Unset(env, keys[i]) :: keys[i]
  }

  lemma {:induction false} PresenceNames(env: map<string, string>, keys: seq<string>)
    requires forall i :: 0 <= i < |keys| ==> EnvKey(keys[i])
    ensures Collect(UnsetKey, PresenceAll(env, keys)) == UnsetOf(env, keys)
  {
    if keys != [] {
      PresenceNames(env, keys[1..]);
      UnsetKeyOf(keys[0], if Unset(env, keys[0]) then UNSET else "<set>");
      CollectCons(UnsetKey, Presence(env, keys[0]), PresenceAll(env, keys[1..]));
      assert forall i :: 1 <= i < |keys| ==> keys[i] == keys[1..][i - 1];
    }
  }

  /** A mode gate that failed asks for exactly the required keys that are unset, and for the mode when it is unset, or is set
      to the very text that stands for unset. */
  lemma ModeGateNames(env: map<string, string>, checkId: string, modeKey: string, mode: string, keys: seq<string>, next: string)
    requires EnvKey(modeKey) && forall i :: 0 <= i < |keys| ==> EnvKey(keys[i])
    requires ExpectMode(env, checkId, modeKey, mode, keys, next).status == Failed
    ensures Collect(UnsetKey, ExpectMode(env, checkId, modeKey, mode, keys, next).evidence) ==
            (if Unset(env, modeKey) || env[modeKey] == UNSET then {modeKey} else {})
            + UnsetOf(env, keys)
  {
    var value := if Unset(env, modeKey) then UNSET else env[modeKey];
    PresenceNames(env, keys);
    UnsetKeyOf(modeKey, value);
    CollectCons(UnsetKey, modeKey + "=" + value, PresenceAll(env, keys));
  }

  lemma NoneUnset(env: map<string, string>, keys: seq<string>)
    ensures MissingKeys(env, keys) == [] <==> UnsetOf(env, keys) == {}
  {
    assert forall i :: 0 <= i < |keys| && Unset(env, keys[i]) ==> keys[i] in UnsetOf(env, keys);
  }

  /** The other gates ask for exactly their keys that are unset; a key gate fails when there are any. */
  lemma KeyGateNames(env: map<string, string>, checkId: string, keys: seq<string>, next: string)
    requires forall i :: 0 <= i < |keys| ==> EnvKey(keys[i])
    ensures Collect(UnsetKey, ExpectKeys(env, checkId, keys, next).evidence) == UnsetOf(env, keys)
    ensures Collect(UnsetKey, ExternalRehearsal(env, checkId, keys, next).evidence) == UnsetOf(env, keys)
    ensures ExpectKeys(env, checkId, keys, next).status == Failed <==> UnsetOf(env, keys) != {}
  {
    PresenceNames(env, keys);
    NoneUnset(env, keys);
  }

  // ---- the plan ----

  datatype Guidance = Guidance(requiredEnv: seq<string>, commands: seq<string>, requiredEvidence: seq<string>, docs: seq<string>)

  const UNGUIDED := Guidance([], [], ["reviewed evidence for this readiness check"], [])

  datatype Gate = Gate(checkId: string, status: Status, summary: string, nextAction: Option<string>, missingEnv: seq<string>, guidance: Guidance)

  datatype Plan = Plan(generatedAt: string, summary: string, commands: seq<string>, gates: seq<Gate>, missingEnv: seq<string>)

  /** `_gate_plan` */
  function GatePlan(check: Check, table: map<string, Guidance>): Gate {
    Gate(check.checkId, check.status, check.summary, check.nextAction, SortedSet(Collect(UnsetKey, check.evidence)),
         if check.checkId in table then table[check.checkId] else UNGUIDED)
  }

  function GatePlans(checks: seq<Check>, table: map<string, Guidance>): seq<Gate> {
    if checks == [] then []
    else (if checks[0].status != Passed then [GatePlan(checks[0], table)] else []) + GatePlans(checks[1..], table)
  }

  function AllMissing(gates: seq<Gate>): set<string> {
    set i, n | 0 <= i < |gates| && n in gates[i].missingEnv :: n
  }

  /** `build_staging_evidence_plan`, given the readiness report and the texts it adds */
  function PlanFor(report: Report, table: map<string, Guidance>, generatedAt: string, summary: string, commands: seq<string>): Plan {
    var gates := GatePlans(report.checks, table);
    Plan(generatedAt, summary, commands, gates, SortedSet(AllMissing(gates)))
  }

  // ---- what a plan holds ----

  /** Some evidence line of the check says that the key is unset. A key has no equals sign. */
  predicate AsksFor(check: Check, key: string) {
    EnvKey(key) && key + "=<unset>" in check.evidence
  }

  /** The gate tells of the check, and its missing names are the keys the check asks for, ascending. */
  ghost predicate TellsOf(gate: Gate, check: Check) {
    && gate.checkId == check.checkId && gate.status == check.status && gate.summary == check.summary && gate.nextAction == check.nextAction
    && Ascending(gate.missingEnv) && forall key :: key in gate.missingEnv <==> AsksFor(check, key)
  }

  /** The gates are those checks that have not passed, in order, each once. */
  ghost predicate Plans(gates: seq<Gate>, checks: seq<Check>) {
    exists at: seq<nat> :: PlansAt(gates, checks, at)
  }

  ghost predicate Rising(at: seq<nat>) {
    forall j, k :: 0 <= j < k < |at| ==> at[j] < at[k]
  }

  ghost predicate TellsAt(gates: seq<Gate>, checks: seq<Check>, at: seq<nat>) {
    |at| == |gates| && forall k :: 0 <= k < |at| ==> at[k] < |checks| && checks[at[k]].status != Passed && TellsOf(gates[k], checks[at[k]])
  }

  predicate CoversAll(checks: seq<Check>, at: seq<nat>) {
    forall i: nat :: i < |checks| && checks[i].status != Passed ==> i in at
  }

  ghost predicate PlansAt(gates: seq<Gate>, checks: seq<Check>, at: seq<nat>) {
    Rising(at) && TellsAt(gates, checks, at) && CoversAll(checks, at)
  }

  predicate MissingSomewhere(checks: seq<Check>, key: string) {
    exists i :: 0 <= i < |checks| && checks[i].status != Passed && AsksFor(checks[i], key)
  }

  /** The names are the keys that some check that has not passed asks for, ascending. */
  ghost predicate MissingNames(names: seq<string>, checks: seq<Check>) {
    Ascending(names) && forall key :: key in names <==> MissingSomewhere(checks, key)
  }

  lemma UnsetKeyIff(value: string, key: string)
    ensures key in UnsetKey(value) <==> EnvKey(key) && value == key + "=<unset>"
  {
    if key in UnsetKey(value) {
      var at := EqualsAt(value);
      assert value == value[..at] + "=" + value[at + 1..];
    }
    if EnvKey(key) && value == key + "=<unset>" {
      UnsetKeyOf(key, UNSET);
      assert value == key + "=" + UNSET;
    }
  }

  lemma {:induction false} CollectHas(names: string -> set<string>, xs: seq<string>, x: string, n: string)
    requires x in xs && n in names(x)
    ensures n in Collect(names, xs)
  {
    if x != xs[0] {
      CollectHas(names, xs[1..], x, n);
    }
  }

  lemma CollectedIff(check: Check, key: string)
    ensures key in Collect(UnsetKey, check.evidence) <==> AsksFor(check, key)
  {
    if key in Collect(UnsetKey, check.evidence) {
      var i := Collected(UnsetKey, check.evidence, key);
      UnsetKeyIff(check.evidence[i], key);
    }
    if AsksFor(check, key) {
      UnsetKeyIff(key + "=<unset>", key);
      CollectHas(UnsetKey, check.evidence, key + "=<unset>", key);
    }
  }

  lemma GatePlanTells(check: Check, table: map<string, Guidance>)
    ensures TellsOf(GatePlan(check, table), check)
  {
    SortedSetAscends(Collect(UnsetKey, check.evidence));
    forall key ensures key in Collect(UnsetKey, check.evidence) <==> AsksFor(check, key) { CollectedIff(check, key); }
  }

  function Shifted(at: seq<nat>): (r: seq<nat>)
    ensures |r| == |at| && forall k :: 0 <= k < |at| ==> r[k] == at[k] + 1
  {
    seq(|at|, k requires 0 <= k < |at| => at[k] + 1)
  }

  lemma ShiftedCovers(check: Check, checks: seq<Check>, at: seq<nat>, i: nat)
    requires CoversAll(checks, at) && i < |checks| && checks[i].status != Passed
    ensures i + 1 in Shifted(at)
  {
    var k :| 0 <= k < |at| && at[k] == i;
    assert Shifted(at)[k] == i + 1;
  }

  lemma TellsShifted(gates: seq<Gate>, check: Check, checks: seq<Check>, at: seq<nat>)
    requires TellsAt(gates, checks, at)
    ensures TellsAt(gates, [check] + checks, Shifted(at))
  {
    assert forall k :: 0 <= k < |at| ==> ([check] + checks)[at[k] + 1] == checks[at[k]];
  }

  lemma OneMoreCheck(gates: seq<Gate>, check: Check, checks: seq<Check>, at: seq<nat>)
    requires PlansAt(gates, checks, at) && check.status == Passed
    ensures PlansAt(gates, [check] + checks, Shifted(at))
  {
    TellsShifted(gates, check, checks, at);
    forall i: nat | i < |checks| + 1 && ([check] + checks)[i].status != Passed ensures i in Shifted(at) {
      ShiftedCovers(check, checks, at, i - 1);
    }
  }

  lemma TellsFirst(gate: Gate, gates: seq<Gate>, check: Check, checks: seq<Check>, at: seq<nat>)
    requires TellsAt(gates, [check] + checks, at) && check.status != Passed && TellsOf(gate, check)
    ensures TellsAt([gate] + gates, [check] + checks, [0] + at)
  {
    var more := [0] + at;
    assert ([check] + checks)[0] == check && ([gate] + gates)[0] == gate;
    assert forall k :: 0 < k < |more| ==> more[k] == at[k - 1] && ([gate] + gates)[k] == gates[k - 1];
  }

  lemma OneMoreGate(gate: Gate, gates: seq<Gate>, check: Check, checks: seq<Check>, at: seq<nat>)
    requires PlansAt(gates, checks, at) && check.status != Passed && TellsOf(gate, check)
    ensures PlansAt([gate] + gates, [check] + checks, [0] + Shifted(at))
  {
    TellsShifted(gates, check, checks, at);
    TellsFirst(gate, gates, check, checks, Shifted(at));
    CoversFirst(check, checks, at);
    RisingFirst(Shifted(at));
  }

  lemma CoversFirst(check: Check, checks: seq<Check>, at: seq<nat>)
    requires CoversAll(checks, at)
    ensures CoversAll([check] + checks, [0] + Shifted(at))
  {
    forall i: nat | i < |checks| + 1 && ([check] + checks)[i].status != Passed ensures i in [0] + Shifted(at) {
      if i > 0 {
        ShiftedCovers(check, checks, at, i - 1);
      }
    }
  }

  lemma RisingFirst(at: seq<nat>)
    requires Rising(at) && forall k :: 0 <= k < |at| ==> at[k] > 0
    ensures Rising([0] + at)
  {
  }

  lemma GatePlansCons(check: Check, checks: seq<Check>, table: map<string, Guidance>)
    ensures GatePlans([check] + checks, table) ==
            (if check.status != Passed then [GatePlan(check, table)] else []) + GatePlans(checks, table)
  {
    assert ([check] + checks)[0] == check && ([check] + checks)[1..] == checks;
  }

  lemma PlansCons(check: Check, checks: seq<Check>, table: map<string, Guidance>, rest: seq<nat>) returns (at: seq<nat>)
    requires PlansAt(GatePlans(checks, table), checks, rest)
    ensures PlansAt(GatePlans([check] + checks, table), [check] + checks, at)
  {
    GatePlansCons(check, checks, table);
    if check.status == Passed {
      OneMoreCheck(GatePlans(checks, table), check, checks, rest);
      at := Shifted(rest);
      assert [] + GatePlans(checks, table) == GatePlans(checks, table);
    } else {
      GatePlanTells(check, table);
      OneMoreGate(GatePlan(check, table), GatePlans(checks, table), check, checks, rest);
      at := [0] + Shifted(rest);
    }
  }

  lemma {:induction false} GatePlansPlan(checks: seq<Check>, table: map<string, Guidance>) returns (at: seq<nat>)
    ensures PlansAt(GatePlans(checks, table), checks, at)
  {
    if checks == [] {
      at := [];
    } else {
      var rest := GatePlansPlan(checks[1..], table);
      at := PlansCons(checks[0], checks[1..], table, rest);
      assert checks == [checks[0]] + checks[1..];
    }
  }

  lemma AllMissingIff(gates: seq<Gate>, checks: seq<Check>, at: seq<nat>, key: string)
    requires PlansAt(gates, checks, at)
    ensures key in AllMissing(gates) <==> MissingSomewhere(checks, key)
  {
    if key in AllMissing(gates) {
      var k :| 0 <= k < |gates| && key in gates[k].missingEnv;
      assert TellsOf(gates[k], checks[at[k]]);
    }
    if i :| 0 <= i < |checks| && checks[i].status != Passed && AsksFor(checks[i], key) {
      var k :| 0 <= k < |at| && at[k] == i;
      assert TellsOf(gates[k], checks[at[k]]) && key in gates[k].missingEnv;
    }
  }

  /** The plan's gates are the report's checks that have not passed, and its names the keys they ask for. */
  lemma PlanTells(report: Report, table: map<string, Guidance>, generatedAt: string, summary: string, commands: seq<string>)
    ensures var plan := PlanFor(report, table, generatedAt, summary, commands);
            Plans(plan.gates, report.checks) && MissingNames(plan.missingEnv, report.checks)
  {
    var gates := GatePlans(report.checks, table);
    var at := GatePlansPlan(report.checks, table);
    SortedSetAscends(AllMissing(gates));
    forall key ensures key in AllMissing(gates) <==> MissingSomewhere(report.checks, key) { AllMissingIff(gates, report.checks, at, key); }
  }

  // ---- rendering ----

  function CommandLines(lead: string, commands: seq<string>): (lines: seq<string>)
    ensures |lines| == |commands|
    ensures forall i :: 0 <= i < |commands| ==> lines[i] == lead + Ticked(commands[i])
  {
    if commands == [] then [] else [lead + Ticked(commands[0])] + CommandLines(lead, commands[1..])
  }

  const TITLE := "# Staging Evidence Collection Plan"
  const FINAL_VALIDATION := "## Final Validation"

  function HeaderFacts(plan: Plan): seq<string> {
    [ TITLE, "", "- Generated at: " + Ticked(plan.generatedAt), "- Unresolved gates: " + Ticked(Decimal(|plan.gates|)),
      "- Missing env total: " + Ticked(Decimal(|plan.missingEnv|)), "- Summary: " + Ticked(plan.summary), "" ]
  }

  function Header(plan: Plan): seq<string> {
    HeaderFacts(plan) + CLOSING + CommandLines("- ", plan.commands) + [""]
  }

  function NextAction(gate: Gate): string {
    if gate.nextAction.Some? && gate.nextAction.value != "" then gate.nextAction.value else "review the gate summary"
  }

  function GateHead(gate: Gate): seq<string> {
    [ "## " + gate.checkId, "", "- Status: " + Ticked(StatusName(gate.status)), "- Summary: " + gate.summary,
      "- Next action: " + NextAction(gate) ]
  }

  function GateTail(gate: Gate): seq<string> {
    ["- Required env: " + InlineList(gate.guidance.requiredEnv), "- Commands:"]
    + CommandLines("  - ", gate.guidance.commands)
    + ["- Required evidence: " + InlineList(gate.guidance.requiredEvidence), "- Docs: " + InlineList(gate.guidance.docs), ""]
  }

  function GateLines(gate: Gate): seq<string> {
    GateHead(gate) + [MissingLine(gate.missingEnv)] + GateTail(gate)
  }

  /** The lines of one gate after another. */
  function Blocks(block: Gate -> seq<string>, gates: seq<Gate>): seq<string> {
    if gates == [] then [] else Blocks(block, gates[..|gates| - 1]) + block(gates[|gates| - 1])
  }

  lemma BlocksExtend(block: Gate -> seq<string>, lines: seq<string>, gates: seq<Gate>, i: nat)
    requires i < |gates|
    ensures lines + Blocks(block, gates[..i + 1]) == lines + Blocks(block, gates[..i]) + block(gates[i])
  {
    assert gates[..i + 1][..i] == gates[..i];
  }

  method AddGateLines(lines: seq<string>, gates: seq<Gate>) returns (all: seq<string>)
    ensures all == lines + Blocks(GateLines, gates)
  {
    all := lines;
    for i := 0 to |gates|
      invariant all == lines + Blocks(GateLines, gates[..i])
    {
      BlocksExtend(GateLines, lines, gates, i);
      all := all + GateLines(gates[i]);
    }
    assert gates[..|gates|] == gates;
  }

  function PlanContent(plan: Plan): string {
    Content(Header(plan) + Blocks(GateLines, plan.gates))
  }

  /** `render_markdown`, with the line feed the bundle builder adds */
  method RenderMarkdown(plan: Plan) returns (content: string)
    ensures content == PlanContent(plan)
  {
    var lines := AddGateLines(Header(plan), plan.gates);
    content := StripRight(Join(lines)) + "\n";
  }

  // ---- reading the rendered plan back ----

  function Lists(line: string): set<string> {
    InLines(NamesIn, line)
  }

  /** No line among these lists a name, whatever line breaks it holds. */
  ghost predicate Quiet(lines: seq<string>) {
    forall i :: 0 <= i < |lines| ==> Lists(lines[i]) == {}
  }

  /** Only the missing-name lines of the gates list names. */
  ghost predicate QuietElsewhere(plan: Plan) {
    && Quiet(Header(plan))
    && forall i :: 0 <= i < |plan.gates| ==> Quiet(GateHead(plan.gates[i])) && Quiet(GateTail(plan.gates[i]))
  }

  lemma {:induction false} QuietCollect(names: string -> set<string>, lines: seq<string>)
    requires forall i :: 0 <= i < |lines| ==> names(lines[i]) == {}
    ensures Collect(names, lines) == {}
  {
    if lines != [] {
      QuietCollect(names, lines[1..]);
    }
  }

  lemma {:induction false} CollectConcat(names: string -> set<string>, a: seq<string>, b: seq<string>)
    ensures Collect(names, a + b) == Collect(names, a) + Collect(names, b)
  {
    if a == [] {
      assert a + b == b;
    } else {
      CollectConcat(names, a[1..], b);
      assert (a + b)[1..] == a[1..] + b && (a + b)[0] == a[0];
    }
  }

  lemma GateCollect(names: string -> set<string>, gate: Gate)
    requires forall i :: 0 <= i < |GateHead(gate)| ==> names(GateHead(gate)[i]) == {}
    requires forall i :: 0 <= i < |GateTail(gate)| ==> names(GateTail(gate)[i]) == {}
    ensures Collect(names, GateLines(gate)) == names(MissingLine(gate.missingEnv))
  {
    QuietCollect(names, GateHead(gate));
    QuietCollect(names, GateTail(gate));
    CollectOne(names, MissingLine(gate.missingEnv));
    CollectConcat(names, GateHead(gate), [MissingLine(gate.missingEnv)]);
    CollectConcat(names, GateHead(gate) + [MissingLine(gate.missingEnv)], GateTail(gate));
  }

  /** What the missing-name line of a gate lists when read back. */
  function ReadableOf(gate: Gate): set<string> {
    if gate.missingEnv == NONE_ALONE then {} else set n | n in gate.missingEnv
  }

  function Union(each: Gate -> set<string>, gates: seq<Gate>): set<string> {
    set i, n | 0 <= i < |gates| && n in each(gates[i]) :: n
  }

  ghost predicate AllPrintable(gates: seq<Gate>) {
    forall i, j :: 0 <= i < |gates| && 0 <= j < |gates[i].missingEnv| ==> Printable(gates[i].missingEnv[j])
  }

  lemma UnionSnoc(each: Gate -> set<string>, init: seq<Gate>, last: Gate)
    ensures Union(each, init + [last]) == Union(each, init) + each(last)
  {
    var gates := init + [last];
    assert forall i :: 0 <= i < |init| ==> gates[i] == init[i];
    assert gates[|init|] == last;
  }

  lemma {:induction false} BlocksCollect(names: string -> set<string>, block: Gate -> seq<string>, each: Gate -> set<string>, gates: seq<Gate>)
    requires forall i :: 0 <= i < |gates| ==> Collect(names, block(gates[i])) == each(gates[i])
    ensures Collect(names, Blocks(block, gates)) == Union(each, gates)
  {
    if gates != [] {
      var init, last := gates[..|gates| - 1], gates[|gates| - 1];
      BlocksCollect(names, block, each, init);
      CollectConcat(names, Blocks(block, init), block(last));
      UnionSnoc(each, init, last);
      assert gates == init + [last];
    }
  }

  lemma GateReadBack(gate: Gate)
    requires Quiet(GateHead(gate)) && Quiet(GateTail(gate))
    requires forall j :: 0 <= j < |gate.missingEnv| ==> Printable(gate.missingEnv[j])
    ensures Collect(Lists, GateLines(gate)) == ReadableOf(gate)
  {
    GateCollect(Lists, gate);
    MissingLineReadBack(gate.missingEnv);
  }

  lemma GatesReadBack(gates: seq<Gate>)
    requires AllPrintable(gates) && forall i :: 0 <= i < |gates| ==> Quiet(GateHead(gates[i])) && Quiet(GateTail(gates[i]))
    ensures Collect(Lists, Blocks(GateLines, gates)) == Union(ReadableOf, gates)
  {
    forall i | 0 <= i < |gates| ensures Collect(Lists, GateLines(gates[i])) == ReadableOf(gates[i]) {
      GateReadBack(gates[i]);
    }
    BlocksCollect(Lists, GateLines, ReadableOf, gates);
  }

  /** The parser, run on the rendered plan, reads what the gates list, except where `none` is all a gate lists. */
  lemma ParsedPlan(plan: Plan)
    requires QuietElsewhere(plan) && AllPrintable(plan.gates)
    ensures InLines(NamesIn, PlanContent(plan)) == Union(ReadableOf, plan.gates)
  {
    NamesInIgnoresTrailing();
    ContentLists(NamesIn, Lists, Header(plan) + Blocks(GateLines, plan.gates));
    CollectConcat(Lists, Header(plan), Blocks(GateLines, plan.gates));
    QuietCollect(Lists, Header(plan));
    GatesReadBack(plan.gates);
  }

  /** If a gate lists `none` alone, another gate lists it among others. */
  ghost predicate NoneIsSeen(gates: seq<Gate>) {
    (exists i :: 0 <= i < |gates| && gates[i].missingEnv == NONE_ALONE) ==>
      exists i :: 0 <= i < |gates| && "none" in gates[i].missingEnv && gates[i].missingEnv != NONE_ALONE
  }

  lemma ReadableIsAll(gates: seq<Gate>)
    ensures Union(ReadableOf, gates) == AllMissing(gates) <==> NoneIsSeen(gates)
  {
    assert NONE_ALONE[0] == "none" && forall n :: n in NONE_ALONE ==> n == "none";
    assert Union(ReadableOf, gates) <= AllMissing(gates);
    if i :| 0 <= i < |gates| && gates[i].missingEnv == NONE_ALONE {
      assert "none" in gates[i].missingEnv;
      assert "none" in AllMissing(gates);
    }
    if NoneIsSeen(gates) {
      forall n | n in AllMissing(gates) ensures n in Union(ReadableOf, gates) {
        var i :| 0 <= i < |gates| && n in gates[i].missingEnv;
        var k :| 0 <= k < |gates| && n in gates[k].missingEnv && gates[k].missingEnv != NONE_ALONE;
        assert n in ReadableOf(gates[k]);
      }
    }
  }

  lemma ReadBackOnlyIfPrintable(content: string, gates: seq<Gate>)
    requires InLines(NamesIn, content) == AllMissing(gates)
    ensures AllPrintable(gates)
  {
    var parsed := InLines(NamesIn, content);
    forall n | n in parsed ensures Printable(n) {
      OnlyPrintableRead(content, n);
    }
    MembersPrintable(parsed, gates);
  }

  lemma InAllMissing(gates: seq<Gate>, i: nat, j: nat)
    requires i < |gates| && j < |gates[i].missingEnv|
    ensures gates[i].missingEnv[j] in AllMissing(gates)
  {
    assert gates[i].missingEnv[j] in gates[i].missingEnv;
  }

  lemma MembersPrintable(names: set<string>, gates: seq<Gate>)
    requires names == AllMissing(gates) && forall n :: n in names ==> Printable(n)
    ensures AllPrintable(gates)
  {
    forall i, j | 0 <= i < |gates| && 0 <= j < |gates[i].missingEnv| ensures Printable(gates[i].missingEnv[j]) {
      InAllMissing(gates, i, j);
    }
  }

  lemma ReadBackIff(plan: Plan)
    requires QuietElsewhere(plan)
    ensures InLines(NamesIn, PlanContent(plan)) == AllMissing(plan.gates) <==> AllPrintable(plan.gates) && NoneIsSeen(plan.gates)
  {
    if InLines(NamesIn, PlanContent(plan)) == AllMissing(plan.gates) {
      ReadBackOnlyIfPrintable(PlanContent(plan), plan.gates);
    }
    if AllPrintable(plan.gates) {
      ParsedPlan(plan);
      ReadableIsAll(plan.gates);
    }
  }

  /** The parsed list is the plan's list exactly when every missing name is printable and no gate's only missing name is
      `none`, unless another gate lists `none` in company. */
  lemma RoundTripIff(plan: Plan)
    requires QuietElsewhere(plan) && plan.missingEnv == SortedSet(AllMissing(plan.gates))
    ensures SortedSet(InLines(NamesIn, PlanContent(plan))) == plan.missingEnv <==> AllPrintable(plan.gates) && NoneIsSeen(plan.gates)
  {
    ReadBackIff(plan);
    SameSortedSet(InLines(NamesIn, PlanContent(plan)), AllMissing(plan.gates));
  }

  lemma SameSortedSet(a: set<string>, b: set<string>)
    ensures SortedSet(a) == SortedSet(b) <==> a == b
  {
    assert forall x :: x in a <==> x in SortedSet(a);
    assert forall x :: x in b <==> x in SortedSet(b);
  }

  // ---- one-line texts are quiet ----

  ghost predicate OneLines(texts: seq<string>) {
    forall i :: 0 <= i < |texts| ==> OneLine(texts[i])
  }

  /** None of the texts the plan carries holds a line break. */
  ghost predicate TextsOneLine(plan: Plan) {
    && OneLine(plan.generatedAt) && OneLine(plan.summary) && OneLines(plan.commands)
    && forall i :: 0 <= i < |plan.gates| ==> GateTextsOneLine(plan.gates[i])
  }

  ghost predicate GateTextsOneLine(gate: Gate) {
    && OneLine(gate.checkId) && OneLine(gate.summary) && OneLine(NextAction(gate))
    && OneLines(gate.guidance.requiredEnv) && OneLines(gate.guidance.commands)
    && OneLines(gate.guidance.requiredEvidence) && OneLines(gate.guidance.docs)
  }

  lemma Departs(prefix: string, line: string, stripped: string, k: nat)
    requires stripped <= line && k < |line| && k < |prefix| && line[k] != prefix[k]
    ensures !(prefix <= stripped)
  {
  }

  /** A line that departs from the prefix of a missing-name line at its `k`-th character. */
  predicate Departing(line: string, k: nat) {
    OneLine(line) && k < |line| && k < |PREFIX| && line[k] != PREFIX[k] && !Space(line[0])
  }

  lemma NotListed(line: string)
    requires OneLine(line) && !(PREFIX <= Strip(line))
    ensures Lists(line) == {}
  {
    NamesInIgnoresTrailing();
    OneLineAlone(NamesIn, line);
  }

  lemma StripDeparts(line: string, k: nat)
    requires Departing(line, k)
    ensures !(PREFIX <= Strip(line))
  {
    assert StripLeft(line) == line;
    Departs(PREFIX, line, Strip(line), k);
  }

  lemma SpaceInFront(line: string)
    ensures Strip(" " + line) == Strip(line)
  {
    assert (" " + line)[1..] == line;
    assert StripLeft(" " + line) == StripLeft(line);
  }

  lemma DepartingLineQuiet(line: string, k: nat)
    requires Departing(line, k)
    ensures Lists(line) == {}
  {
    StripDeparts(line, k);
    NotListed(line);
  }

  lemma Indented(text: string)
    ensures " " + (" " + ("- " + text)) == "  - " + text
  {
  }

  lemma IndentedQuiet(line: string, spaced: string, indented: string)
    requires Departing(line, 2) && spaced == " " + line && indented == " " + spaced
    ensures Lists(indented) == {}
  {
    StripDeparts(line, 2);
    SpaceInFront(line);
    SpaceInFront(spaced);
    NotListed(indented);
  }

  lemma CommandLineQuiet(command: string)
    requires OneLine(command)
    ensures Lists("  - " + Ticked(command)) == {}
  {
    var line := "- " + Ticked(command);
    Indented(Ticked(command));
    IndentedQuiet(line, " " + line, "  - " + Ticked(command));
  }

  /** Departing lines, blank lines and indented commands list nothing. */
  ghost predicate Silent(names: string -> set<string>) {
    && (forall line, k: nat :: Departing(line, k) ==> names(line) == {})
    && names("") == {}
    && (forall command :: OneLine(command) ==> names("  - " + Ticked(command)) == {})
  }

  lemma DepartingLinesQuiet()
    ensures forall line, k: nat :: Departing(line, k) ==> Lists(line) == {}
  {
    forall line, k: nat | Departing(line, k) ensures Lists(line) == {} { DepartingLineQuiet(line, k); }
  }

  lemma CommandsQuiet()
    ensures forall command :: OneLine(command) ==> Lists("  - " + Ticked(command)) == {}
  {
    forall command | OneLine(command) ensures Lists("  - " + Ticked(command)) == {} { CommandLineQuiet(command); }
  }

  lemma ListsIsSilent()
    ensures Silent(Lists)
  {
    NotListed("");
    SilentIf(Lists);
  }

  lemma SilentIf(names: string -> set<string>)
    requires names == Lists && names("") == {}
    ensures Silent(names)
  {
    DepartingLinesQuiet();
    CommandsQuiet();
  }

  ghost predicate NoneListed(names: string -> set<string>, lines: seq<string>) {
    forall i :: 0 <= i < |lines| ==> names(lines[i]) == {}
  }

  lemma NoneListedConcat(names: string -> set<string>, a: seq<string>, b: seq<string>)
    requires NoneListed(names, a) && NoneListed(names, b)
    ensures NoneListed(names, a + b)
  {
  }

  lemma DashedLineQuiet(names: string -> set<string>, command: string)
    requires Silent(names) && OneLine(command)
    ensures names("- " + Ticked(command)) == {} && names("  - " + Ticked(command)) == {}
  {
    var line := "- " + Ticked(command);
    assert Departing(line, 2);
  }

  lemma CommandLinesQuiet(names: string -> set<string>, commands: seq<string>)
    requires Silent(names) && OneLines(commands)
    ensures NoneListed(names, CommandLines("- ", commands)) && NoneListed(names, CommandLines("  - ", commands))
  {
    forall i | 0 <= i < |commands| ensures names(CommandLines("- ", commands)[i]) == {} && names(CommandLines("  - ", commands)[i]) == {} {
      DashedLineQuiet(names, commands[i]);
    }
  }

  lemma {:induction false} DecimalOneLine(n: nat)
    ensures OneLine(Decimal(n))
  {
    if n >= 10 {
      DecimalOneLine(n / 10);
    }
  }

  lemma ListOneLine(values: seq<string>)
    requires OneLines(values)
    ensures OneLine(InlineList(values))
  {
    if values != [] {
      JoinedOneLine(values);
    }
  }

  lemma GateHeadQuiet(names: string -> set<string>, gate: Gate)
    requires Silent(names) && GateTextsOneLine(gate)
    ensures NoneListed(names, GateHead(gate))
  {
    assert Departing("## " + gate.checkId, 0);
    assert Departing("- Status: " + Ticked(StatusName(gate.status)), 2);
    assert Departing("- Summary: " + gate.summary, 2);
    assert Departing("- Next action: " + NextAction(gate), 2);
  }

  lemma GateTailQuiet(names: string -> set<string>, gate: Gate)
    requires Silent(names) && GateTextsOneLine(gate)
    ensures NoneListed(names, GateTail(gate))
  {
    var g := gate.guidance;
    var first := ["- Required env: " + InlineList(g.requiredEnv), "- Commands:"];
    var last := ["- Required evidence: " + InlineList(g.requiredEvidence), "- Docs: " + InlineList(g.docs), ""];
    FirstQuiet(names, g);
    LastQuiet(names, g);
    CommandLinesQuiet(names, g.commands);
    NoneListedConcat(names, first, CommandLines("  - ", g.commands));
    NoneListedConcat(names, first + CommandLines("  - ", g.commands), last);
  }

  lemma FirstQuiet(names: string -> set<string>, g: Guidance)
    requires Silent(names) && OneLines(g.requiredEnv)
    ensures NoneListed(names, ["- Required env: " + InlineList(g.requiredEnv), "- Commands:"])
  {
    ListOneLine(g.requiredEnv);
    assert Departing("- Required env: " + InlineList(g.requiredEnv), 2);
    assert Departing("- Commands:", 2);
  }

  lemma LastQuiet(names: string -> set<string>, g: Guidance)
    requires Silent(names) && OneLines(g.requiredEvidence) && OneLines(g.docs)
    ensures NoneListed(names, ["- Required evidence: " + InlineList(g.requiredEvidence), "- Docs: " + InlineList(g.docs), ""])
  {
    ListOneLine(g.requiredEvidence);
    ListOneLine(g.docs);
    assert Departing("- Required evidence: " + InlineList(g.requiredEvidence), 2);
    assert Departing("- Docs: " + InlineList(g.docs), 2);
  }

  lemma CountsQuiet(names: string -> set<string>, n: nat)
    requires Silent(names)
    ensures names("- Unresolved gates: " + Ticked(Decimal(n))) == {} && names("- Missing env total: " + Ticked(Decimal(n))) == {}
  {
    DecimalOneLine(n);
    assert Departing("- Unresolved gates: " + Ticked(Decimal(n)), 2);
    assert Departing("- Missing env total: " + Ticked(Decimal(n)), 13);
  }

  lemma HeaderFactsQuiet(names: string -> set<string>, plan: Plan)
    requires Silent(names) && OneLine(plan.generatedAt) && OneLine(plan.summary)
    ensures NoneListed(names, HeaderFacts(plan))
  {
    assert Departing(TITLE, 0);
    assert Departing("- Generated at: " + Ticked(plan.generatedAt), 2);
    CountsQuiet(names, |plan.gates|);
    CountsQuiet(names, |plan.missingEnv|);
    assert Departing("- Summary: " + Ticked(plan.summary), 2);
  }

  const CLOSING := [FINAL_VALIDATION, "", "After collecting reviewed evidence, run:", ""]

  lemma ClosingDeparts()
    ensures Departing(FINAL_VALIDATION, 0) && Departing("After collecting reviewed evidence, run:", 0)
  {
  }

  lemma ClosingQuiet(names: string -> set<string>)
    requires Silent(names)
    ensures NoneListed(names, CLOSING)
  {
    ClosingDeparts();
  }

  lemma HeaderQuiet(names: string -> set<string>, plan: Plan)
    requires Silent(names) && OneLine(plan.generatedAt) && OneLine(plan.summary) && OneLines(plan.commands)
    ensures NoneListed(names, Header(plan))
  {
    HeaderFactsQuiet(names, plan);
    ClosingQuiet(names);
    CommandLinesQuiet(names, plan.commands);
    PartsQuiet(names, HeaderFacts(plan), CLOSING, CommandLines("- ", plan.commands));
  }

  lemma PartsQuiet(names: string -> set<string>, a: seq<string>, b: seq<string>, c: seq<string>)
    requires names("") == {} && NoneListed(names, a) && NoneListed(names, b) && NoneListed(names, c)
    ensures NoneListed(names, a + b + c + [""])
  {
    NoneListedConcat(names, a, b);
    NoneListedConcat(names, a + b, c);
    NoneListedConcat(names, a + b + c, [""]);
  }

  /** Texts without line breaks never look like a missing-name line. */
  lemma OneLineTextsQuiet(plan: Plan)
    requires TextsOneLine(plan)
    ensures QuietElsewhere(plan)
  {
    ListsIsSilent();
    HeaderQuiet(Lists, plan);
    forall i | 0 <= i < |plan.gates| ensures Quiet(GateHead(plan.gates[i])) && Quiet(GateTail(plan.gates[i])) {
      GateHeadQuiet(Lists, plan.gates[i]);
      GateTailQuiet(Lists, plan.gates[i]);
    }
  }

  // ---- fixed parts of the file ----

  lemma HeaderStarts(plan: Plan)
    ensures var lines := Header(plan) + Blocks(GateLines, plan.gates);
            |lines| > 7 && lines[0] == TITLE && lines[7] == FINAL_VALIDATION
  {
  }

  lemma CommandInLines(plan: Plan, i: nat)
    requires i < |plan.commands|
    ensures var lines := Header(plan) + Blocks(GateLines, plan.gates);
            |lines| > 11 + i && lines[11 + i] == "- " + Ticked(plan.commands[i])
  {
  }

  lemma WholeLineInContent(lines: seq<string>, i: nat)
    requires i < |lines| && lines[i] != "" && !Space(lines[i][|lines[i]| - 1])
    ensures Contains(Content(lines), lines[i])
  {
    assert "" + lines[i] + "" == lines[i];
    LineInContent(lines, i, "", lines[i], "");
  }

  lemma CommandInContent(lines: seq<string>, i: nat, command: string)
    requires i < |lines| && lines[i] == "- " + Ticked(command)
    ensures Contains(Content(lines), command)
  {
    assert "- " + Ticked(command) == "- `" + command + "`";
    LineInContent(lines, i, "- `", command, "`");
  }

  lemma HeadingsInContent(lines: seq<string>)
    requires |lines| > 7 && lines[0] == TITLE && lines[7] == FINAL_VALIDATION
    ensures Contains(Content(lines), TITLE) && Contains(Content(lines), FINAL_VALIDATION)
  {
    WholeLineInContent(lines, 0);
    WholeLineInContent(lines, 7);
  }

  lemma PlanHasHeadings(plan: Plan)
    ensures Contains(PlanContent(plan), TITLE) && Contains(PlanContent(plan), FINAL_VALIDATION)
  {
    HeaderStarts(plan);
    HeadingsInContent(Header(plan) + Blocks(GateLines, plan.gates));
  }

  lemma {:induction false} BlockIsPart(block: Gate -> seq<string>, gates: seq<Gate>, k: nat) returns (lead: seq<string>, rest: seq<string>)
    requires k < |gates|
    ensures Blocks(block, gates) == lead + block(gates[k]) + rest
  {
    var init, last := gates[..|gates| - 1], gates[|gates| - 1];
    if k == |init| {
      lead, rest := Blocks(block, init), [];
      assert lead + block(last) + rest == lead + block(last);
    } else {
      var l, r := BlockIsPart(block, init, k);
      lead, rest := l, r + block(last);
      assert lead + block(gates[k]) + rest == (l + block(init[k]) + r) + block(last);
    }
  }

  /** Ascending, and exactly the keys the check asks for. */
  ghost predicate NamesOf(names: seq<string>, check: Check) {
    Ascending(names) && forall key :: key in names <==> AsksFor(check, key)
  }

  /** The section of a check, up to its missing names. */
  function Section(checkId: string, status: string, summary: string, nextAction: Option<string>, names: seq<string>): string {
    ("## " + checkId) + "\n\n" + ("- Status: `" + status + "`") + "\n" + ("- Summary: " + summary) + "\n"
    + ("- Next action: " + if nextAction.Some? && nextAction.value != "" then nextAction.value else "review the gate summary")
    + "\n" + ("- Missing env: " + InlineList(names))
  }

  /** The file has the section of a check. */
  ghost predicate HasSection(content: string, check: Check) {
    exists names :: NamesOf(names, check)
                    && Contains(content, Section(check.checkId, StatusName(check.status), check.summary, check.nextAction, names))
  }

  lemma SixLines(a: string, b: string, c: string, d: string, e: string, f: string)
    ensures Join([a, b, c, d, e, f]) == a + "\n" + b + "\n" + c + "\n" + d + "\n" + e + "\n" + f
  {
    JoinCons(e, [f]);
    JoinCons(d, [e, f]);
    JoinCons(c, [d, e, f]);
    JoinCons(b, [c, d, e, f]);
    JoinCons(a, [b, c, d, e, f]);
    assert a + "\n" + (b + "\n" + (c + "\n" + (d + "\n" + (e + "\n" + f))))
        == a + "\n" + b + "\n" + c + "\n" + d + "\n" + e + "\n" + f;
  }

  lemma JoinCons(line: string, rest: seq<string>)
    requires rest != []
    ensures Join([line] + rest) == line + "\n" + Join(rest)
    ensures |rest| == 1 ==> Join(rest) == rest[0]
  {
    assert ([line] + rest)[1..] == rest;
  }

  function FirstLines(gate: Gate): seq<string> {
    GateHead(gate) + [MissingLine(gate.missingEnv)]
  }

  lemma FirstLinesJoined(gate: Gate)
    ensures Join(FirstLines(gate)) == Section(gate.checkId, StatusName(gate.status), gate.summary, gate.nextAction, gate.missingEnv)
    ensures Join(FirstLines(gate)) != "" && !Space(Join(FirstLines(gate))[|Join(FirstLines(gate))| - 1])
  {
    var status, summary, next := "- Status: " + Ticked(StatusName(gate.status)), "- Summary: " + gate.summary, "- Next action: " + NextAction(gate);
    var missing := MissingLine(gate.missingEnv);
    assert FirstLines(gate) == ["## " + gate.checkId, "", status, summary, next, missing];
    SixLines("## " + gate.checkId, "", status, summary, next, missing);
    BlankLine("## " + gate.checkId, status);
    StatusLine(StatusName(gate.status));
    MissingLineIs(gate.missingEnv);
    LastOfSection("## " + gate.checkId + "\n\n" + status + "\n" + summary + "\n" + next + "\n", missing);
  }

  lemma BlankLine(heading: string, status: string)
    ensures heading + "\n" + "" + "\n" + status == heading + "\n\n" + status
  {
  }

  lemma StatusLine(name: string)
    ensures "- Status: " + Ticked(name) == "- Status: `" + name + "`"
  {
  }

  lemma MissingLineIs(names: seq<string>)
    ensures MissingLine(names) == "- Missing env: " + InlineList(names) && MissingLine(names) != ""
    ensures MissingLine(names)[|MissingLine(names)| - 1] == '`'
  {
  }

  lemma LastOfSection(before: string, missing: string)
    requires missing != "" && missing[|missing| - 1] == '`'
    ensures before + missing != "" && (before + missing)[|before + missing| - 1] == '`'
  {
  }

  /** Every gate has its section in the file. */
  lemma PlanHasGate(plan: Plan, k: nat)
    requires k < |plan.gates|
    ensures var gate := plan.gates[k];
            Contains(PlanContent(plan), Section(gate.checkId, StatusName(gate.status), gate.summary, gate.nextAction, gate.missingEnv))
  {
    var gate := plan.gates[k];
    var lead, rest := BlockIsPart(GateLines, plan.gates, k);
    FirstLinesJoined(gate);
    GateInLines(Header(plan), lead, FirstLines(gate), GateTail(gate), rest, GateLines(gate), Blocks(GateLines, plan.gates));
    RunInContent(Header(plan) + lead, FirstLines(gate), GateTail(gate) + rest);
  }

  lemma GateInLines(header: seq<string>, lead: seq<string>, first: seq<string>, tail: seq<string>, rest: seq<string>, gate: seq<string>,
                    blocks: seq<string>)
    requires gate == first + tail && blocks == lead + gate + rest
    ensures header + blocks == (header + lead) + first + (tail + rest)
  {
  }

  /** Every check that has not passed has its section in the file. */
  lemma PlanHasCheck(plan: Plan, checks: seq<Check>, i: nat)
    requires Plans(plan.gates, checks) && i < |checks| && checks[i].status != Passed
    ensures HasSection(PlanContent(plan), checks[i])
  {
    var at: seq<nat> :| PlansAt(plan.gates, checks, at);
    var k :| 0 <= k < |at| && at[k] == i;
    assert TellsOf(plan.gates[k], checks[at[k]]);
    assert NamesOf(plan.gates[k].missingEnv, checks[i]);
    PlanHasGate(plan, k);
  }

  lemma PlanHasCommand(plan: Plan, i: nat)
    requires i < |plan.commands|
    ensures Contains(PlanContent(plan), plan.commands[i])
  {
    CommandInLines(plan, i);
    CommandInContent(Header(plan) + Blocks(GateLines, plan.gates), 11 + i, plan.commands[i]);
  }
}
