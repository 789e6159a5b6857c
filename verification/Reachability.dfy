/** The committed policy and its evaluation over link evidence (load_policy, evaluate_tool and
    evaluate of scripts/security/final_audit_reachability.py). */
module Reachability {
  import opened Prelude
  import opened LinkEvidence
  import SemVer
  import Json = CanonicalJson

  datatype Tool = Trivy | Grype | Syft | Gitleaks | OtherTool(name: string)

  datatype Mode = Absent | MinVersion | FamilyMinVersion | OtherMode(text: string)

  /** A rule as read from JSON: a missing or mistyped field is None. */
  datatype Rule = Rule(id: string, mode: Mode, name: Option<string>, prefix: Option<string>,
                       minimum: Option<string>, closure: bool)

  datatype Config = Config(main: Option<string>, minimumCount: Option<int>, rules: seq<Rule>)

  datatype Semantics = Semantics(reachabilityOnly: Option<bool>, dependabotClosure: Option<bool>,
                                 preserved: seq<int>, gatesKept: bool)

  datatype Policy = Policy(schema: int, semantics: Semantics, tools: map<Tool, Config>)

  const MINIMUM_LINKED_DEPENDENCIES := 10

  const PINNED := {Trivy, Grype, Syft, Gitleaks}

  function MainPackage(tool: Tool): string {
    match tool
    case Trivy => "github.com/aquasecurity/trivy/cmd/trivy"
    case Grype => "github.com/anchore/grype/cmd/grype"
    case Syft => "github.com/anchore/syft/cmd/syft"
    case Gitleaks => "github.com/zricethezav/gitleaks/v8"
    case OtherTool(_) => ""
  }

  // ----- the built-in floors -----

  function NotLinked(id: string, name: string): Rule { Rule(id, Absent, Some(name), None, None, false) }

  function AtLeastRule(id: string, name: string, minimum: string): Rule {
    Rule(id, MinVersion, Some(name), None, Some(minimum), false)
  }

  function FamilyRule(id: string, prefix: string, minimum: string): Rule {
    Rule(id, FamilyMinVersion, None, Some(prefix), Some(minimum), false)
  }

  function Containerd(id: string): Rule { AtLeastRule(id, "github.com/containerd/containerd/v2", "v2.3.6") }

  function Otel(id: string): Rule { FamilyRule(id, "go.opentelemetry.io/otel", "v1.45.0") }

  function LegacyDocker(id: string): Rule { NotLinked(id, "github.com/docker/docker") }

  function Rardecode(id: string): Rule { AtLeastRule(id, "github.com/nwaples/rardecode/v2", "v2.2.0") }

  function Xz(id: string): Rule { AtLeastRule(id, "github.com/ulikunitz/xz", "v0.5.15") }

  /** The built-in rules. */
  datatype BuiltInRule = TrivyDocker | TrivyContainerd | TrivyOtel | GrypeDocker | GrypeContainerd | GrypeOtel
    | SyftContainerd | SyftOtel | GitleaksRardecode | GitleaksXz

  function IdOf(r: BuiltInRule): string {
    match r
    case TrivyDocker => "trivy-legacy-docker-not-linked"
    case TrivyContainerd => "trivy-containerd-floor-or-absent"
    case TrivyOtel => "trivy-otel-family-floor-or-absent"
    case GrypeDocker => "grype-legacy-docker-not-linked"
    case GrypeContainerd => "grype-containerd-floor-or-absent"
    case GrypeOtel => "grype-otel-family-floor-or-absent"
    case SyftContainerd => "syft-containerd-floor-or-absent"
    case SyftOtel => "syft-otel-family-floor-or-absent"
    case GitleaksRardecode => "gitleaks-rardecode-floor-or-absent"
    case GitleaksXz => "gitleaks-xz-floor-or-absent"
  }

  /** REQUIRED_REACHABILITY_RULES */
  function Required(tool: Tool): seq<Rule> {
    match tool
    case Trivy => [LegacyDocker(IdOf(TrivyDocker)), Containerd(IdOf(TrivyContainerd)), Otel(IdOf(TrivyOtel))]
    case Grype => [LegacyDocker(IdOf(GrypeDocker)), Containerd(IdOf(GrypeContainerd)), Otel(IdOf(GrypeOtel))]
    case Syft => [Containerd(IdOf(SyftContainerd)), Otel(IdOf(SyftOtel))]
    case Gitleaks => [Rardecode(IdOf(GitleaksRardecode)), Xz(IdOf(GitleaksXz))]
    case OtherTool(_) => []
  }

  // ----- load_policy -----

  predicate NonEmpty(s: Option<string>) { s.Some? && s.value != "" }

  /** A rule fit to be evaluated. */
  predicate RuleOk(rule: Rule) {
    && rule.id != "" && !rule.mode.OtherMode? && !rule.closure
    && (rule.mode == Absent || rule.mode == MinVersion ==> NonEmpty(rule.name))
    && (rule.mode == FamilyMinVersion ==> NonEmpty(rule.prefix))
    && (rule.mode != Absent ==> rule.minimum.Some? && SemVer.Parse(rule.minimum.value).Some?)
  }

  predicate DistinctIds(rules: seq<Rule>) {
    forall i, j | 0 <= i < j < |rules| :: rules[i].id != rules[j].id
  }

  /** The rule looks at what the required one looks at, with a floor at least as high. */
  predicate Strengthens(rule: Rule, required: Rule) {
    && rule.id == required.id && rule.mode == required.mode
    && (required.name.Some? ==> rule.name == required.name)
    && (required.prefix.Some? ==> rule.prefix == required.prefix)
    && (required.minimum.Some? ==>
      rule.minimum.Some? && SemVer.AtLeast(rule.minimum.value, required.minimum.value) == Some(true))
  }

  predicate Kept(rules: seq<Rule>, required: Rule) {
    exists i | 0 <= i < |rules| :: Strengthens(rules[i], required)
  }

  predicate RulesOk(rules: seq<Rule>) {
    DistinctIds(rules) && forall i | 0 <= i < |rules| :: RuleOk(rules[i])
  }

  predicate AllKept(rules: seq<Rule>, required: seq<Rule>) {
    forall k | 0 <= k < |required| :: Kept(rules, required[k])
  }

  predicate ConfigOk(tool: Tool, config: Config) {
    && config.main == Some(MainPackage(tool))
    && config.minimumCount.Some? && config.minimumCount.value >= MINIMUM_LINKED_DEPENDENCIES
    && config.rules != [] && RulesOk(config.rules) && AllKept(config.rules, Required(tool))
  }

  predicate SemanticsOk(s: Semantics) {
    s.reachabilityOnly == Some(true) && s.dependabotClosure == Some(false) && 48 in s.preserved
    && 50 in s.preserved && s.gatesKept
  }

  predicate PolicyOk(p: Policy) {
    p.schema == 1 && SemanticsOk(p.semantics) && p.tools.Keys == PINNED
    && forall t | t in p.tools :: ConfigOk(t, p.tools[t])
  }

  method LoadPolicy(p: Policy) returns (r: Result<()>)
    ensures r.Ok? <==> PolicyOk(p)
  {
    if p.schema != 1 || p.tools.Keys != PINNED || !SemanticsOk(p.semantics) {
      return Err("policy schema, tools or semantics");
    }
    var left := p.tools.Keys;
    while left != {}
      invariant left <= p.tools.Keys
      invariant forall t | t in p.tools && t !in left :: ConfigOk(t, p.tools[t])
      decreases |left|
    {
      var tool :| tool in left;
      var ok := CheckConfig(tool, p.tools[tool]);
      if !ok {
        return Err("tool configuration");
      }
      left := left - {tool};
    }
    return Ok(());
  }

  method CheckConfig(tool: Tool, config: Config) returns (ok: bool)
    ensures ok <==> ConfigOk(tool, config)
  {
    hide MainPackage, RulesOk, AllKept, Required;
    if config.main != Some(MainPackage(tool)) { return false; }
    if config.minimumCount.None? || config.minimumCount.value < MINIMUM_LINKED_DEPENDENCIES { return false; }
    if config.rules == [] { return false; }
    var rulesOk := CheckRules(config.rules);
    if !rulesOk { return false; }
    ok := CheckRequired(config.rules, Required(tool));
  }

  /** The loop over the rules with `seen_ids`. */
  method CheckRules(rules: seq<Rule>) returns (ok: bool)
    ensures ok <==> RulesOk(rules)
  {
    hide RuleOk;
    var seen: set<string> := {};
    var n := 0;
    while n < |rules|
      invariant n <= |rules|
      invariant forall i | 0 <= i < n :: RuleOk(rules[i]) && rules[i].id in seen
      invariant forall id | id in seen :: exists i | 0 <= i < n :: rules[i].id == id
      invariant forall i, j | 0 <= i < j < n :: rules[i].id != rules[j].id
    {
      if rules[n].id in seen || !RuleOk(rules[n]) { return false; }
      seen := seen + {rules[n].id};
      n := n + 1;
    }
    return true;
  }

  /** The loop over the required rules, each looked up in `rules_by_id`. */
  method CheckRequired(rules: seq<Rule>, required: seq<Rule>) returns (ok: bool)
    requires RulesOk(rules)
    ensures ok <==> AllKept(rules, required)
  {
    hide Strengthens, Kept, RulesOk, DistinctIds;
    OwnIds(rules);
    var k := 0;
    while k < |required|
      invariant k <= |required|
      invariant forall m | 0 <= m < k :: Kept(rules, required[m])
    {
      var i := FindRule(rules, required[k].id);
      if i.None? || !Strengthens(rules[i.value], required[k]) {
        NotKept(rules, required[k], i);
        return false;
      }
      KeptThere(rules, required[k], i.value);
      k := k + 1;
    }
    return true;
  }

  lemma OwnIds(rules: seq<Rule>)
    requires RulesOk(rules)
    ensures DistinctIds(rules)
  {
  }

  lemma KeptThere(rules: seq<Rule>, required: Rule, n: nat)
    requires n < |rules| && Strengthens(rules[n], required)
    ensures Kept(rules, required)
  {
    hide Strengthens;
  }

  lemma NotKept(rules: seq<Rule>, required: Rule, i: Option<nat>)
    requires DistinctIds(rules)
    requires match i
      case Some(n) => n < |rules| && rules[n].id == required.id && !Strengthens(rules[n], required)
      case None => forall j | 0 <= j < |rules| :: rules[j].id != required.id
    ensures !Kept(rules, required)
  {
  }

  method FindRule(rules: seq<Rule>, id: string) returns (i: Option<nat>)
    ensures match i
      case Some(n) => n < |rules| && rules[n].id == id
      case None => forall j | 0 <= j < |rules| :: rules[j].id != id
  {
    var n := 0;
    while n < |rules|
      invariant n <= |rules|
      invariant forall j | 0 <= j < n :: rules[j].id != id
    {
      if rules[n].id == id { return Some(n); }
      n := n + 1;
    }
    return None;
  }

  // ----- evaluate_tool -----

  predicate StartsWith(s: string, prefix: string) { prefix <= s }

  /** The linked modules a rule looks at. */
  predicate Targets(rule: Rule, name: string) {
    if rule.mode == FamilyMinVersion then rule.prefix.Some? && StartsWith(name, rule.prefix.value)
    else rule.name == Some(name)
  }

  /** Evidence about a targeted module that the evaluation does not decide on. */
  predicate Refused(rule: Rule, m: LinkedModule)
    requires RuleOk(rule)
  {
    m.replaced.Some? || (rule.mode != Absent && SemVer.AtLeast(m.version, rule.minimum.value).None?)
  }

  predicate Meets(rule: Rule, m: LinkedModule)
    requires RuleOk(rule)
  {
    m.replaced.None? && rule.mode != Absent && SemVer.AtLeast(m.version, rule.minimum.value) == Some(true)
  }

  predicate AnyRefused(rule: Rule, modules: map<string, LinkedModule>)
    requires RuleOk(rule)
  {
    exists name | name in modules :: Targets(rule, name) && Refused(rule, modules[name])
  }

  predicate Holds(rule: Rule, modules: map<string, LinkedModule>)
    requires RuleOk(rule)
  {
    forall name | name in modules && Targets(rule, name) :: Meets(rule, modules[name])
  }

  /** One rule over the modules it targets: None where the source raises. */
  method EvaluateRule(rule: Rule, modules: map<string, LinkedModule>) returns (pass: Option<bool>)
    requires RuleOk(rule)
    ensures pass.None? <==> AnyRefused(rule, modules)
    ensures pass.Some? ==> (pass.value <==> Holds(rule, modules))
  {
    hide Refused, Meets, RuleOk;
    if rule.mode != FamilyMinVersion {
      NamedTarget(rule);
      if rule.name.value !in modules { return Some(true); }
      pass := EvaluateModule(rule, modules[rule.name.value]);
      return;
    }
    FamilyTarget(rule);
    var matched := set name | name in modules && StartsWith(name, rule.prefix.value);
    pass := Some(true);
    while matched != {}
      invariant matched <= modules.Keys && forall name | name in matched :: Targets(rule, name)
      invariant pass.Some?
      invariant forall name | name in modules && Targets(rule, name) && name !in matched ::
        !Refused(rule, modules[name])
      invariant pass.value <==>
        forall name | name in modules && Targets(rule, name) && name !in matched :: Meets(rule, modules[name])
      decreases |matched|
    {
      var name :| name in matched;
      var one := EvaluateModule(rule, modules[name]);
      if one.None? { return None; }
      matched := matched - {name};
      pass := Some(pass.value && one.value);
    }
  }

  lemma NamedTarget(rule: Rule)
    requires RuleOk(rule) && rule.mode != FamilyMinVersion
    ensures rule.name.Some?
  {
  }

  lemma FamilyTarget(rule: Rule)
    requires RuleOk(rule) && rule.mode == FamilyMinVersion
    ensures rule.prefix.Some?
  {
  }

  method EvaluateModule(rule: Rule, m: LinkedModule) returns (pass: Option<bool>)
    requires RuleOk(rule)
    ensures pass.None? <==> Refused(rule, m)
    ensures pass.Some? ==> (pass.value <==> Meets(rule, m))
  {
    if m.replaced.Some? { return None; }
    if rule.mode == Absent { return Some(false); }
    pass := SemVer.AtLeast(m.version, rule.minimum.value);
  }

  ghost predicate ToolRefused(config: Config, lines: seq<Line>)
    requires RulesOk(config.rules) && config.minimumCount.Some?
  {
    || !Complete(Filled(lines), config.minimumCount.value, config.main)
    || (exists modules, i | Records(Filled(lines), modules) && 0 <= i < |config.rules| ::
        AnyRefused(config.rules[i], modules))
  }

  ghost predicate ToolPasses(config: Config, lines: seq<Line>)
    requires RulesOk(config.rules)
  {
    forall modules, i | Records(Filled(lines), modules) && 0 <= i < |config.rules| :: Holds(config.rules[i], modules)
  }

  method EvaluateTool(config: Config, lines: seq<Line>) returns (pass: Option<bool>)
    requires RulesOk(config.rules) && config.minimumCount.Some?
    ensures pass.None? <==> ToolRefused(config, lines)
    ensures pass.Some? ==> (pass.value <==> ToolPasses(config, lines))
  {
    hide AnyRefused, Holds, RuleOk, Complete, Records;
    var parsed := ParseGoVersionM(lines, config.minimumCount.value, config.main);
    if parsed.Err? { return None; }
    var modules := parsed.value;
    var status, n := true, 0;
    while n < |config.rules|
      invariant n <= |config.rules|
      invariant forall i | 0 <= i < n :: !AnyRefused(config.rules[i], modules)
      invariant status <==> forall i | 0 <= i < n :: Holds(config.rules[i], modules)
    {
      var one := EvaluateRule(config.rules[n], modules);
      if one.None? { return None; }
      status := status && one.value;
      n := n + 1;
    }
    forall m | Records(Filled(lines), m) ensures m == modules { OnlyRecord(lines, m, modules); }
    return Some(status);
  }

  lemma OnlyRecord(lines: seq<Line>, a: map<string, LinkedModule>, b: map<string, LinkedModule>)
    requires Records(Filled(lines), a) && Records(Filled(lines), b)
    ensures a == b
  {
    RecordsUnique(Filled(lines), a, b);
  }

  // ----- evaluate -----

  lemma PolicyTools(p: Policy)
    requires PolicyOk(p)
    ensures forall t | t in p.tools :: RulesOk(p.tools[t].rules) && p.tools[t].minimumCount.Some?
  {
    hide RulesOk, AllKept, Required, MainPackage, SemanticsOk;
    assert forall t | t in p.tools :: ConfigOk(t, p.tools[t]);
  }

  /** The evidence of this tool is complete, nothing in it is refused and every rule holds. */
  ghost predicate ToolOk(config: Config, lines: seq<Line>) {
    && RulesOk(config.rules) && config.minimumCount.Some?
    && !ToolRefused(config, lines) && ToolPasses(config, lines)
  }

  /** There is evidence for exactly the tools of the policy, and each is in order. */
  ghost predicate Passed(p: Policy, evidence: map<Tool, seq<Line>>) {
    evidence.Keys == p.tools.Keys && forall t | t in p.tools :: ToolOk(p.tools[t], evidence[t])
  }

  /** The status of the report; None where the source raises EvidenceError. */
  method Evaluate(p: Policy, evidence: map<Tool, seq<Line>>) returns (pass: Option<bool>)
    requires PolicyOk(p)
    ensures pass.None? <==>
      evidence.Keys != p.tools.Keys || exists t | t in p.tools :: ToolRefused(p.tools[t], evidence[t])
    ensures pass.Some? ==> (pass.value <==> forall t | t in p.tools :: ToolPasses(p.tools[t], evidence[t]))
    ensures pass == Some(true) <==> Passed(p, evidence)
  {
    hide ToolRefused, ToolPasses, RulesOk, AllKept, Required, MainPackage, ConfigOk, PolicyOk, SemanticsOk;
    if evidence.Keys != p.tools.Keys { return None; }
    PolicyTools(p);
    var left, failed := p.tools.Keys, false;
    while left != {}
      invariant left <= p.tools.Keys
      invariant forall t | t in p.tools && t !in left :: !ToolRefused(p.tools[t], evidence[t])
      invariant !failed <==> forall t | t in p.tools && t !in left :: ToolPasses(p.tools[t], evidence[t])
      decreases |left|
    {
      var tool :| tool in left;
      var one := EvaluateTool(p.tools[tool], evidence[tool]);
      if one.None? { return None; }
      left := left - {tool};
      failed := failed || !one.value;
    }
    return Some(!failed);
  }

  // ----- what PASS means -----

  /** No dependency line breaks the rule: what it targets is not linked, or it is a floor rule and
      the module is linked as itself at the floor or above. */
  ghost predicate Safe(rule: Rule, lines: seq<Line>) {
    var L := Filled(lines);
    forall i | 2 <= i < |L| && IsDep(L[i]) && Targets(rule, L[i].fields[1]) :: AtFloor(rule, ModuleAt(L, i))
  }

  predicate AtFloor(rule: Rule, m: LinkedModule) {
    && rule.mode != Absent && m.replaced.None? && rule.minimum.Some?
    && SemVer.AtLeast(m.version, rule.minimum.value) == Some(true)
  }

  predicate WellFormed(r: Rule) {
    if r.mode == FamilyMinVersion then r.prefix.Some? && r.minimum.Some?
    else r.name.Some? && (r.mode != Absent ==> r.minimum.Some?)
  }

  lemma RequiredWellFormed(tool: Tool, k: nat)
    requires k < |Required(tool)|
    ensures WellFormed(Required(tool)[k])
  {
    hide IdOf;
  }

  lemma MeetsStronger(rule: Rule, required: Rule, m: LinkedModule)
    requires RuleOk(rule) && Strengthens(rule, required) && WellFormed(required) && Meets(rule, m)
    ensures AtFloor(required, m)
  {
    SemVer.FloorsChain(m.version, rule.minimum.value, required.minimum.value);
  }

  lemma StrongerIsSafe(rule: Rule, required: Rule, lines: seq<Line>, modules: map<string, LinkedModule>)
    requires RuleOk(rule) && Strengthens(rule, required) && WellFormed(required)
    requires Records(Filled(lines), modules) && Holds(rule, modules)
    ensures Safe(required, lines)
  {
    var L := Filled(lines);
    forall i | 2 <= i < |L| && IsDep(L[i]) && Targets(required, L[i].fields[1])
      ensures AtFloor(required, ModuleAt(L, i))
    {
      var name := L[i].fields[1];
      assert Targets(rule, name) && Meets(rule, modules[name]);
      MeetsStronger(rule, required, modules[name]);
    }
  }

  lemma RequiredIsKept(p: Policy, tool: Tool, k: nat) returns (j: nat)
    requires PolicyOk(p) && tool in p.tools && k < |Required(tool)|
    ensures ConfigOk(tool, p.tools[tool]) && j < |p.tools[tool].rules|
    ensures Strengthens(p.tools[tool].rules[j], Required(tool)[k]) && RuleOk(p.tools[tool].rules[j])
  {
    hide MainPackage, Required, Strengthens, RuleOk;
    assert ConfigOk(tool, p.tools[tool]);
    var rules := p.tools[tool].rules;
    assert Kept(rules, Required(tool)[k]);
    j :| 0 <= j < |rules| && Strengthens(rules[j], Required(tool)[k]);
  }

  /** PASS under an accepted policy: for every pinned tool and every built-in rule, no dependency
      line of the tool's evidence breaks the rule, whatever else the policy says. */
  lemma PassIsSafe(p: Policy, evidence: map<Tool, seq<Line>>, tool: Tool, k: nat)
    requires PolicyOk(p) && Passed(p, evidence)
    requires tool in PINNED && k < |Required(tool)|
    ensures Safe(Required(tool)[k], evidence[tool])
  {
    var j := RequiredIsKept(p, tool, k);
    RequiredWellFormed(tool, k);
    hide Required, PolicyOk, RuleOk, Strengthens, Holds, Safe, AllKept, MainPackage;
    var config, lines := p.tools[tool], evidence[tool];
    assert ToolOk(config, lines);
    var modules := RecordsExist(Filled(lines), config.main);
    assert Holds(config.rules[j], modules);
    StrongerIsSafe(config.rules[j], Required(tool)[k], lines, modules);
  }

  // ----- a policy that is accepted -----

  lemma SmallNumbers()
    ensures Json.PrintNat(0) == "0" && Json.PrintNat(1) == "1" && Json.PrintNat(2) == "2" && Json.PrintNat(3) == "3"
    ensures Json.PrintNat(5) == "5" && Json.PrintNat(6) == "6" && Json.PrintNat(15) == "15" && Json.PrintNat(45) == "45"
  {
    assert Json.PrintNat(4) == "4";
  }

  /** The text of a floor is a version, and meets itself. */
  lemma FloorReads(text: string, major: nat, minor: nat, patch: nat)
    requires text == "v" + Json.PrintNat(major) + "." + Json.PrintNat(minor) + "." + Json.PrintNat(patch)
    ensures SemVer.Parse(text) == Some(SemVer.Version(major, minor, patch, None))
    ensures SemVer.AtLeast(text, text) == Some(true)
  {
    var v := SemVer.Version(major, minor, patch, None);
    hide SemVer.Parse, Json.PrintNat;
    SemVer.ParseUndoesText(v, "v", "");
    assert "v" + SemVer.Text(v) + "" == text;
    SemVer.Antisymmetric(v, v);
  }

  lemma FloorsRead()
    ensures SemVer.Parse("v2.3.6") == Some(SemVer.Version(2, 3, 6, None))
    ensures SemVer.AtLeast("v2.3.6", "v2.3.6") == Some(true)
    ensures SemVer.Parse("v1.45.0") == Some(SemVer.Version(1, 45, 0, None))
    ensures SemVer.AtLeast("v1.45.0", "v1.45.0") == Some(true)
    ensures SemVer.Parse("v2.2.0") == Some(SemVer.Version(2, 2, 0, None))
    ensures SemVer.AtLeast("v2.2.0", "v2.2.0") == Some(true)
    ensures SemVer.Parse("v0.5.15") == Some(SemVer.Version(0, 5, 15, None))
    ensures SemVer.AtLeast("v0.5.15", "v0.5.15") == Some(true)
  {
    hide SemVer.Parse, SemVer.AtLeast, Json.PrintNat;
    SmallNumbers();
    FloorReads("v2.3.6", 2, 3, 6);
    FloorReads("v1.45.0", 1, 45, 0);
    FloorReads("v2.2.0", 2, 2, 0);
    FloorReads("v0.5.15", 0, 5, 15);
  }

  lemma RequiredIds(tool: Tool)
    ensures DistinctIds(Required(tool)) && forall i | 0 <= i < |Required(tool)| :: Required(tool)[i].id != ""
  {
    hide IdOf;
    IdsNotEmpty();
    TrivyIdsDiffer();
    GrypeIdsDiffer();
    OtherIdsDiffer();
  }

  lemma IdsNotEmpty()
    ensures forall r :: IdOf(r) != ""
  {
  }

  lemma TrivyIdsDiffer()
    ensures IdOf(TrivyDocker) != IdOf(TrivyContainerd) && IdOf(TrivyContainerd) != IdOf(TrivyOtel)
    ensures IdOf(TrivyDocker) != IdOf(TrivyOtel)
  {
    assert |IdOf(TrivyDocker)| == 30 && |IdOf(TrivyContainerd)| == 32 && |IdOf(TrivyOtel)| == 33;
  }

  lemma GrypeIdsDiffer()
    ensures IdOf(GrypeDocker) != IdOf(GrypeContainerd) && IdOf(GrypeContainerd) != IdOf(GrypeOtel)
    ensures IdOf(GrypeDocker) != IdOf(GrypeOtel)
  {
    assert |IdOf(GrypeDocker)| == 30 && |IdOf(GrypeContainerd)| == 32 && |IdOf(GrypeOtel)| == 33;
  }

  lemma OtherIdsDiffer()
    ensures IdOf(SyftContainerd) != IdOf(SyftOtel) && IdOf(GitleaksRardecode) != IdOf(GitleaksXz)
  {
    assert |IdOf(SyftContainerd)| == 31 && |IdOf(SyftOtel)| == 32;
    assert |IdOf(GitleaksRardecode)| == 34 && |IdOf(GitleaksXz)| == 27;
  }

  /** Every built-in rule is fit to be evaluated and strengthens itself. */
  lemma RequiredRuleOk(tool: Tool, i: nat)
    requires i < |Required(tool)|
    ensures RuleOk(Required(tool)[i]) && Strengthens(Required(tool)[i], Required(tool)[i])
  {
    hide IdOf, Containerd, Otel, LegacyDocker, Rardecode, Xz, RuleOk, Strengthens;
    IdsNotEmpty();
    forall r ensures RuleOk(LegacyDocker(IdOf(r))) && Strengthens(LegacyDocker(IdOf(r)), LegacyDocker(IdOf(r))) {
      LegacyDockerOk(IdOf(r));
    }
    forall r ensures RuleOk(Containerd(IdOf(r))) && Strengthens(Containerd(IdOf(r)), Containerd(IdOf(r))) {
      ContainerdOk(IdOf(r));
    }
    forall r ensures RuleOk(Otel(IdOf(r))) && Strengthens(Otel(IdOf(r)), Otel(IdOf(r))) { OtelOk(IdOf(r)); }
    RardecodeOk(IdOf(GitleaksRardecode));
    XzOk(IdOf(GitleaksXz));
  }

  lemma LegacyDockerOk(id: string)
    requires id != ""
    ensures RuleOk(LegacyDocker(id)) && Strengthens(LegacyDocker(id), LegacyDocker(id))
  {
  }

  lemma ContainerdOk(id: string)
    requires id != ""
    ensures RuleOk(Containerd(id)) && Strengthens(Containerd(id), Containerd(id))
  {
    hide SemVer.Parse, SemVer.AtLeast;
    FloorsRead();
  }

  lemma OtelOk(id: string)
    requires id != ""
    ensures RuleOk(Otel(id)) && Strengthens(Otel(id), Otel(id))
  {
    hide SemVer.Parse, SemVer.AtLeast;
    FloorsRead();
  }

  lemma RardecodeOk(id: string)
    requires id != ""
    ensures RuleOk(Rardecode(id)) && Strengthens(Rardecode(id), Rardecode(id))
  {
    hide SemVer.Parse, SemVer.AtLeast;
    FloorsRead();
  }

  lemma XzOk(id: string)
    requires id != ""
    ensures RuleOk(Xz(id)) && Strengthens(Xz(id), Xz(id))
  {
    hide SemVer.Parse, SemVer.AtLeast;
    FloorsRead();
  }

  function BuiltIn(preserved: seq<int>): Policy {
    Policy(1, Semantics(Some(true), Some(false), preserved, true),
      map t | t in PINNED :: Config(Some(MainPackage(t)), Some(MINIMUM_LINKED_DEPENDENCIES), Required(t)))
  }

  lemma RequiredSuffices(tool: Tool)
    requires tool in PINNED
    ensures ConfigOk(tool, Config(Some(MainPackage(tool)), Some(MINIMUM_LINKED_DEPENDENCIES), Required(tool)))
  {
    hide MainPackage, RuleOk, Strengthens, Required;
    RequiredIds(tool);
    NotEmptyRules(tool);
    forall i | 0 <= i < |Required(tool)| ensures RuleOk(Required(tool)[i]) && Kept(Required(tool), Required(tool)[i]) {
      RequiredRuleOk(tool, i);
    }
  }

  /** The policy of the built-in rules alone is accepted. */
  lemma BuiltInIsAccepted()
    ensures PolicyOk(BuiltIn([48, 50]))
  {
    hide MainPackage, Required, ConfigOk;
    forall t | t in PINNED ensures ConfigOk(t, BuiltIn([48, 50]).tools[t]) { RequiredSuffices(t); }
  }

  lemma NotEmptyRules(tool: Tool)
    requires tool in PINNED
    ensures Required(tool) != []
  {
  }
}
