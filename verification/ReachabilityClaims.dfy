/** What an accepted policy and PASS say about the text of the evidence, module by module: which names
    no dependency line has, and which it has only at a recent enough version. */
module ReachabilityClaims {
  import opened Prelude
  import opened LinkEvidence
  import opened Reachability
  import SemVer

  /** A line `dep <module> <version>`. */
  predicate DepText(line: Line) {
    !line.header && |line.fields| >= 3 && line.fields[0] == "dep"
  }

  /** A line `=> <module> ...`. */
  predicate ReplacementText(line: Line) {
    !line.header && |line.fields| >= 2 && line.fields[0] == "=>"
  }

  predicate BlankBetween(lines: seq<Line>, i: nat, j: nat)
    requires j <= |lines|
  {
    forall k | i < k < j :: lines[k].fields == []
  }

  /** No replacement line belongs to line i: another line that is not blank stands before it. */
  predicate Unreplaced(lines: seq<Line>, i: nat)
    requires i < |lines|
  {
    forall j | i < j < |lines| && ReplacementText(lines[j]) :: !BlankBetween(lines, i, j)
  }

  /** The text is a version that does not precede this one, which has no pre-release part. */
  predicate AtLeastVersion(text: string, major: nat, minor: nat, patch: nat) {
    && SemVer.Parse(text).Some?
    && var v := SemVer.Parse(text).value;
    || v.major > major
    || (v.major == major && v.minor > minor)
    || (v.major == major && v.minor == minor && v.patch > patch)
    || (v.major == major && v.minor == minor && v.patch == patch && v.pre == None)
  }

  predicate KeptAt(lines: seq<Line>, i: nat, major: nat, minor: nat, patch: nat)
    requires i < |lines| && DepText(lines[i])
  {
    Unreplaced(lines, i) && AtLeastVersion(lines[i].fields[2], major, minor, patch)
  }

  predicate NoDocker(lines: seq<Line>) {
    forall i | 0 <= i < |lines| && DepText(lines[i]) :: lines[i].fields[1] != "github.com/docker/docker"
  }

  predicate RecentContainerd(lines: seq<Line>) {
    forall i | 0 <= i < |lines| && DepText(lines[i]) && lines[i].fields[1] == "github.com/containerd/containerd/v2" ::
      KeptAt(lines, i, 2, 3, 6)
  }

  ghost predicate InOtelFamily(name: string) { exists suffix :: name == "go.opentelemetry.io/otel" + suffix }

  ghost predicate RecentOtel(lines: seq<Line>) {
    forall i | 0 <= i < |lines| && DepText(lines[i]) && InOtelFamily(lines[i].fields[1]) :: KeptAt(lines, i, 1, 45, 0)
  }

  predicate RecentRardecode(lines: seq<Line>) {
    forall i | 0 <= i < |lines| && DepText(lines[i]) && lines[i].fields[1] == "github.com/nwaples/rardecode/v2" ::
      KeptAt(lines, i, 2, 2, 0)
  }

  predicate RecentXz(lines: seq<Line>) {
    forall i | 0 <= i < |lines| && DepText(lines[i]) && lines[i].fields[1] == "github.com/ulikunitz/xz" ::
      KeptAt(lines, i, 0, 5, 15)
  }

  /** What the evidence of each pinned tool has to say. */
  ghost predicate AdvisoriesKept(tool: Tool, lines: seq<Line>) {
    match tool
    case Trivy => NoDocker(lines) && RecentContainerd(lines) && RecentOtel(lines)
    case Grype => NoDocker(lines) && RecentContainerd(lines) && RecentOtel(lines)
    case Syft => RecentContainerd(lines) && RecentOtel(lines)
    case Gitleaks => RecentRardecode(lines) && RecentXz(lines)
    case OtherTool(_) => true
  }

  // ----- the lines that are not blank -----

  /** The number of lines before line i that are not blank. */
  function Place(lines: seq<Line>, i: nat): nat
    requires i <= |lines|
  {
    |Filled(lines[..i])|
  }

  lemma FilledSnoc(lines: seq<Line>, i: nat)
    requires i < |lines|
    ensures Filled(lines[..i + 1]) == Filled(lines[..i]) + if lines[i].fields == [] then [] else [lines[i]]
  {
    assert lines[..i + 1][..i] == lines[..i];
  }

  lemma FilledAt(lines: seq<Line>, i: nat)
    requires i < |lines| && lines[i].fields != []
    ensures Place(lines, i) < |Filled(lines)| && Filled(lines)[Place(lines, i)] == lines[i]
  {
    FilledSnoc(lines, i);
    FilledPrefix(lines, i + 1);
    hide Filled;
  }

  lemma {:induction false} FilledFrom(lines: seq<Line>, k: nat) returns (i: nat)
    requires k < |Filled(lines)|
    ensures i < |lines| && lines[i].fields != [] && Place(lines, i) == k && Filled(lines)[k] == lines[i]
  {
    var n := |lines| - 1;
    FilledSnoc(lines, n);
    assert lines[..n + 1] == lines;
    if k < |Filled(lines[..n])| {
      i := FilledFrom(lines[..n], k);
      assert lines[..n][..i] == lines[..i];
    } else {
      i := n;
    }
  }

  lemma {:induction false} PlaceGrows(lines: seq<Line>, i: nat, j: nat)
    requires i <= j <= |lines|
    ensures Place(lines, i) <= Place(lines, j)
    ensures Place(lines, i) == Place(lines, j) <==> forall k | i <= k < j :: lines[k].fields == []
    decreases j - i
  {
    if i < j {
      PlaceGrows(lines, i, j - 1);
      FilledSnoc(lines, j - 1);
      hide Filled;
    }
  }

  lemma DepTextIs(line: Line)
    ensures DepText(line) <==> IsDep(line)
    ensures ReplacementText(line) <==> IsReplacement(line)
  {
    if line.fields != [] { WordsAre(line.fields[0]); }
  }

  lemma UnreplacedIs(lines: seq<Line>, i: nat)
    requires i < |lines| && DepText(lines[i])
    requires var k := Place(lines, i); k < |Filled(lines)| && IsDep(Filled(lines)[k])
    ensures ModuleAt(Filled(lines), Place(lines, i)).replaced.None? <==> Unreplaced(lines, i)
  {
    var L, k := Filled(lines), Place(lines, i);
    hide Filled, Place, IsReplacement, ReplacementText, BlankBetween;
    if k + 1 < |L| && IsReplacement(L[k + 1]) {
      var j := NextIsReplaced(lines, i);
      assert !Unreplaced(lines, i);
    }
    forall j | i < j < |lines| && ReplacementText(lines[j]) && BlankBetween(lines, i, j)
      ensures k + 1 < |L| && IsReplacement(L[k + 1])
    {
      ReplacementFound(lines, i, j);
    }
  }

  lemma PlaceAfter(lines: seq<Line>, i: nat)
    requires i < |lines| && lines[i].fields != []
    ensures Place(lines, i + 1) == Place(lines, i) + 1
  {
    FilledSnoc(lines, i);
    hide Filled;
  }

  lemma NextIsReplaced(lines: seq<Line>, i: nat) returns (j: nat)
    requires i < |lines| && DepText(lines[i])
    requires var k := Place(lines, i); k + 1 < |Filled(lines)| && IsReplacement(Filled(lines)[k + 1])
    ensures i < j < |lines| && ReplacementText(lines[j]) && BlankBetween(lines, i, j)
  {
    PlaceAfter(lines, i);
    hide Filled, Place, IsReplacement, ReplacementText;
    j := FilledFrom(lines, Place(lines, i) + 1);
    if j <= i { PlaceGrows(lines, j, i); }
    DepTextIs(lines[j]);
    PlaceGrows(lines, i + 1, j);
  }

  lemma ReplacementFound(lines: seq<Line>, i: nat, j: nat)
    requires i < j < |lines| && DepText(lines[i]) && ReplacementText(lines[j]) && BlankBetween(lines, i, j)
    ensures var k := Place(lines, i); k + 1 < |Filled(lines)| && IsReplacement(Filled(lines)[k + 1])
  {
    DepTextIs(lines[j]);
    assert lines[j].fields != [];
    PlaceAfter(lines, i);
    hide Filled, Place, IsReplacement, ReplacementText;
    PlaceGrows(lines, i + 1, j);
    FilledAt(lines, j);
  }

  /** What the rule demands of dependency line i. */
  predicate RuleKept(rule: Rule, lines: seq<Line>, i: nat)
    requires i < |lines| && DepText(lines[i])
  {
    && rule.mode != Absent && Unreplaced(lines, i) && rule.minimum.Some?
    && SemVer.AtLeast(lines[i].fields[2], rule.minimum.value) == Some(true)
  }

  lemma DepIsInBody(L: seq<Line>, main: Option<string>, k: nat)
    requires Framed(L, main) && k < |L| && IsDep(L[k])
    ensures k >= 2
  {
    WordsAre(L[k].fields[0]);
    assert |L| > 1 ==> IsPathOf(L[1], main);
  }

  /** A rule is safe exactly when every dependency line that it targets keeps it. */
  lemma SafeIff(rule: Rule, lines: seq<Line>, main: Option<string>)
    requires Framed(Filled(lines), main)
    ensures Safe(rule, lines) <==>
      forall i | 0 <= i < |lines| && DepText(lines[i]) && Targets(rule, lines[i].fields[1]) :: RuleKept(rule, lines, i)
  {
    hide Filled, Place, Framed, Unreplaced, Targets;
    var L := Filled(lines);
    forall i | 0 <= i < |lines| && DepText(lines[i])
      ensures var k := Place(lines, i);
        2 <= k < |L| && L[k] == lines[i] && IsDep(L[k]) && (AtFloor(rule, ModuleAt(L, k)) <==> RuleKept(rule, lines, i))
    {
      FilledAt(lines, i);
      DepTextIs(lines[i]);
      DepIsInBody(L, main, Place(lines, i));
      UnreplacedIs(lines, i);
      assert ModuleAt(L, Place(lines, i)).version == lines[i].fields[2];
    }
    forall k | 2 <= k < |L| && IsDep(L[k])
      ensures exists i | 0 <= i < |lines| && DepText(lines[i]) :: Place(lines, i) == k
    {
      var i := FilledFrom(lines, k);
      DepTextIs(lines[i]);
    }
  }

  // ----- the built-in rules, by name -----

  lemma FloorMeans(text: string, floor: string, major: nat, minor: nat, patch: nat)
    requires SemVer.Parse(floor) == Some(SemVer.Version(major, minor, patch, None))
    ensures SemVer.AtLeast(text, floor) == Some(true) <==> AtLeastVersion(text, major, minor, patch)
  {
    if SemVer.Parse(text).Some? {
      SemVer.AtLeastIsPrecedence(text, floor);
    }
    hide SemVer.Parse, SemVer.Compare;
  }

  lemma KeptIs(rule: Rule, lines: seq<Line>, i: nat, major: nat, minor: nat, patch: nat)
    requires i < |lines| && DepText(lines[i]) && rule.mode != Absent && rule.minimum.Some?
    requires SemVer.Parse(rule.minimum.value) == Some(SemVer.Version(major, minor, patch, None))
    ensures RuleKept(rule, lines, i) <==> KeptAt(lines, i, major, minor, patch)
  {
    hide Unreplaced, SemVer.Parse, SemVer.AtLeast, AtLeastVersion;
    FloorMeans(lines[i].fields[2], rule.minimum.value, major, minor, patch);
  }

  lemma NoDockerIs(id: string, lines: seq<Line>, main: Option<string>)
    requires Framed(Filled(lines), main)
    ensures Safe(LegacyDocker(id), lines) <==> NoDocker(lines)
  {
    SafeIff(LegacyDocker(id), lines, main);
    hide Safe, Framed;
    assert forall name :: Targets(LegacyDocker(id), name) <==> name == "github.com/docker/docker";
  }

  lemma RecentContainerdIs(id: string, lines: seq<Line>, main: Option<string>)
    requires Framed(Filled(lines), main)
    ensures Safe(Containerd(id), lines) <==> RecentContainerd(lines)
  {
    SafeIff(Containerd(id), lines, main);
    FloorsRead();
    hide Safe, Framed, RuleKept, KeptAt;
    assert forall name :: Targets(Containerd(id), name) <==> name == "github.com/containerd/containerd/v2";
    forall i | 0 <= i < |lines| && DepText(lines[i])
      ensures RuleKept(Containerd(id), lines, i) <==> KeptAt(lines, i, 2, 3, 6)
    {
      KeptIs(Containerd(id), lines, i, 2, 3, 6);
    }
  }

  lemma RecentOtelIs(id: string, lines: seq<Line>, main: Option<string>)
    requires Framed(Filled(lines), main)
    ensures Safe(Otel(id), lines) <==> RecentOtel(lines)
  {
    SafeIff(Otel(id), lines, main);
    FloorsRead();
    hide Safe, Framed, RuleKept, KeptAt;
    forall name ensures Targets(Otel(id), name) <==> InOtelFamily(name) {
      OtelTargets(id, name);
    }
    forall i | 0 <= i < |lines| && DepText(lines[i])
      ensures RuleKept(Otel(id), lines, i) <==> KeptAt(lines, i, 1, 45, 0)
    {
      KeptIs(Otel(id), lines, i, 1, 45, 0);
    }
  }

  lemma OtelTargets(id: string, name: string)
    ensures Targets(Otel(id), name) <==> InOtelFamily(name)
  {
    var prefix := "go.opentelemetry.io/otel";
    if Targets(Otel(id), name) {
      assert name == prefix + name[|prefix|..];
    }
  }

  lemma RecentRardecodeIs(id: string, lines: seq<Line>, main: Option<string>)
    requires Framed(Filled(lines), main)
    ensures Safe(Rardecode(id), lines) <==> RecentRardecode(lines)
  {
    SafeIff(Rardecode(id), lines, main);
    FloorsRead();
    hide Safe, Framed, RuleKept, KeptAt;
    assert forall name :: Targets(Rardecode(id), name) <==> name == "github.com/nwaples/rardecode/v2";
    forall i | 0 <= i < |lines| && DepText(lines[i])
      ensures RuleKept(Rardecode(id), lines, i) <==> KeptAt(lines, i, 2, 2, 0)
    {
      KeptIs(Rardecode(id), lines, i, 2, 2, 0);
    }
  }

  lemma RecentXzIs(id: string, lines: seq<Line>, main: Option<string>)
    requires Framed(Filled(lines), main)
    ensures Safe(Xz(id), lines) <==> RecentXz(lines)
  {
    SafeIff(Xz(id), lines, main);
    FloorsRead();
    hide Safe, Framed, RuleKept, KeptAt;
    assert forall name :: Targets(Xz(id), name) <==> name == "github.com/ulikunitz/xz";
    forall i | 0 <= i < |lines| && DepText(lines[i])
      ensures RuleKept(Xz(id), lines, i) <==> KeptAt(lines, i, 0, 5, 15)
    {
      KeptIs(Xz(id), lines, i, 0, 5, 15);
    }
  }

  ghost predicate AllSafe(rules: seq<Rule>, lines: seq<Line>) {
    forall k | 0 <= k < |rules| :: Safe(rules[k], lines)
  }

  lemma AllSafeOf(a: Rule, b: Rule, c: Rule, lines: seq<Line>)
    ensures AllSafe([a, b], lines) <==> Safe(a, lines) && Safe(b, lines)
    ensures AllSafe([a, b, c], lines) <==> Safe(a, lines) && Safe(b, lines) && Safe(c, lines)
  {
    hide Safe;
    assert [a, b][0] == a && [a, b][1] == b;
    assert [a, b, c][0] == a && [a, b, c][1] == b && [a, b, c][2] == c;
  }

  /** The built-in rules of a tool are safe exactly when its evidence keeps the advisories. */
  lemma RequiredAre(tool: Tool, lines: seq<Line>, main: Option<string>)
    requires Framed(Filled(lines), main) && tool in {Trivy, Grype, Syft, Gitleaks}
    ensures AllSafe(Required(tool), lines) <==> AdvisoriesKept(tool, lines)
  {
    hide Safe, Framed, LegacyDocker, Containerd, Otel, Rardecode, Xz, IdOf, AllSafe, Filled;
    hide NoDocker, RecentContainerd, RecentOtel, RecentRardecode, RecentXz;
    match tool
    case Trivy => ScannerRules(TrivyDocker, TrivyContainerd, TrivyOtel, lines, main);
    case Grype => ScannerRules(GrypeDocker, GrypeContainerd, GrypeOtel, lines, main);
    case Syft => ScannerRules(TrivyDocker, SyftContainerd, SyftOtel, lines, main);
    case Gitleaks =>
      var a, b := Rardecode(IdOf(GitleaksRardecode)), Xz(IdOf(GitleaksXz));
      RecentRardecodeIs(IdOf(GitleaksRardecode), lines, main);
      RecentXzIs(IdOf(GitleaksXz), lines, main);
      AllSafeOf(a, b, a, lines);
  }

  lemma ScannerRules(x: BuiltInRule, y: BuiltInRule, z: BuiltInRule, lines: seq<Line>, main: Option<string>)
    requires Framed(Filled(lines), main)
    ensures AllSafe([LegacyDocker(IdOf(x)), Containerd(IdOf(y)), Otel(IdOf(z))], lines) <==>
      NoDocker(lines) && RecentContainerd(lines) && RecentOtel(lines)
    ensures AllSafe([Containerd(IdOf(y)), Otel(IdOf(z))], lines) <==> RecentContainerd(lines) && RecentOtel(lines)
  {
    hide Safe, Framed, LegacyDocker, Containerd, Otel, IdOf, AllSafe, Filled, NoDocker, RecentContainerd, RecentOtel;
    NoDockerIs(IdOf(x), lines, main);
    RecentContainerdIs(IdOf(y), lines, main);
    RecentOtelIs(IdOf(z), lines, main);
    AllSafeOf(LegacyDocker(IdOf(x)), Containerd(IdOf(y)), Otel(IdOf(z)), lines);
    AllSafeOf(Containerd(IdOf(y)), Otel(IdOf(z)), Otel(IdOf(z)), lines);
  }

  /** PASS under an accepted policy, in the words of the advisories: no legacy Docker module in Trivy
      or Grype; containerd at v2.3.6 and the whole OpenTelemetry family at v1.45.0 or above in
      Trivy, Grype and Syft; rardecode at v2.2.0 and xz at v0.5.15 or above in Gitleaks. */
  lemma PassKeepsAdvisories(p: Policy, evidence: map<Tool, seq<Line>>, tool: Tool)
    requires PolicyOk(p) && Passed(p, evidence) && tool in p.tools
    ensures tool in {Trivy, Grype, Syft, Gitleaks} && tool in evidence && AdvisoriesKept(tool, evidence[tool])
  {
    hide PolicyOk, Passed, Required, Safe, AdvisoriesKept, Framed, Filled;
    PinnedTools(p);
    EvidenceIsFramed(p, evidence, tool);
    forall k | 0 <= k < |Required(tool)| ensures Safe(Required(tool)[k], evidence[tool]) {
      PassIsSafe(p, evidence, tool, k);
    }
    assert AllSafe(Required(tool), evidence[tool]);
    RequiredAre(tool, evidence[tool], p.tools[tool].main);
  }

  lemma PinnedTools(p: Policy)
    requires PolicyOk(p)
    ensures p.tools.Keys == {Trivy, Grype, Syft, Gitleaks}
  {
    hide ConfigOk, SemanticsOk;
  }

  lemma EvidenceIsFramed(p: Policy, evidence: map<Tool, seq<Line>>, tool: Tool)
    requires Passed(p, evidence) && tool in p.tools
    ensures tool in evidence && Framed(Filled(evidence[tool]), p.tools[tool].main)
  {
    hide ToolOk, Framed, Filled;
    AcceptedEvidence(p.tools[tool], evidence[tool]);
  }

  lemma AcceptedEvidence(config: Config, lines: seq<Line>)
    requires ToolOk(config, lines)
    ensures Framed(Filled(lines), config.main)
  {
    hide RulesOk, Framed, Filled, ToolPasses;
  }

  /** Over recorded modules a rule is neither refused nor broken exactly when it is safe. */
  lemma RuleSafeIff(rule: Rule, lines: seq<Line>, modules: map<string, LinkedModule>)
    requires RuleOk(rule) && Records(Filled(lines), modules)
    ensures Safe(rule, lines) <==> !AnyRefused(rule, modules) && Holds(rule, modules)
  {
    hide Filled, SemVer.AtLeast, Targets, SemVer.Parse;
    var L := Filled(lines);
    if Safe(rule, lines) {
      forall name | name in modules && Targets(rule, name)
        ensures !Refused(rule, modules[name]) && Meets(rule, modules[name])
      {
        var i :| 2 <= i < |L| && IsDep(L[i]) && L[i].fields[1] == name;
        assert AtFloor(rule, ModuleAt(L, i));
      }
    }
    if Holds(rule, modules) {
      forall i | 2 <= i < |L| && IsDep(L[i]) && Targets(rule, L[i].fields[1]) ensures AtFloor(rule, ModuleAt(L, i)) {
        assert Meets(rule, modules[L[i].fields[1]]);
      }
    }
  }

  lemma RulesSafeIff(config: Config, lines: seq<Line>)
    requires RulesOk(config.rules) && config.minimumCount.Some?
    requires Complete(Filled(lines), config.minimumCount.value, config.main)
    ensures ToolOk(config, lines) <==> AllSafe(config.rules, lines)
  {
    hide Filled, Framed, Records, Safe, AnyRefused, Holds, RuleOk;
    var modules := RecordsExist(Filled(lines), config.main);
    forall m | Records(Filled(lines), m) ensures m == modules { OnlyRecord(lines, m, modules); }
    forall k | 0 <= k < |config.rules|
      ensures Safe(config.rules[k], lines) <==> !AnyRefused(config.rules[k], modules) && Holds(config.rules[k], modules)
    {
      RuleSafeIff(config.rules[k], lines, modules);
    }
  }

  /** Under the policy of the built-in rules complete evidence passes exactly when it keeps the
      advisories, tool by tool. */
  lemma BuiltInPassIff(evidence: map<Tool, seq<Line>>)
    requires evidence.Keys == {Trivy, Grype, Syft, Gitleaks}
    requires forall t | t in evidence :: Complete(Filled(evidence[t]), 10, Some(MainPackage(t)))
    ensures Passed(BuiltIn([48, 50]), evidence) <==> forall t | t in evidence :: AdvisoriesKept(t, evidence[t])
  {
    var p := BuiltIn([48, 50]);
    BuiltInConfigs();
    hide Complete, Filled, MainPackage, ToolOk, AdvisoriesKept, BuiltIn;
    forall t | t in evidence ensures ToolOk(p.tools[t], evidence[t]) <==> AdvisoriesKept(t, evidence[t]) {
      BuiltInToolIff(t, p.tools[t], evidence[t]);
    }
  }

  lemma BuiltInConfigs()
    ensures var p := BuiltIn([48, 50]);
      && p.tools.Keys == {Trivy, Grype, Syft, Gitleaks}
      && forall t | t in p.tools ::
          RulesOk(p.tools[t].rules) && p.tools[t] == Config(Some(MainPackage(t)), Some(10), Required(t))
  {
    hide MainPackage, Required, RulesOk;
    BuiltInIsAccepted();
    PolicyTools(BuiltIn([48, 50]));
  }

  lemma BuiltInToolIff(tool: Tool, config: Config, lines: seq<Line>)
    requires tool in {Trivy, Grype, Syft, Gitleaks}
    requires config == Config(Some(MainPackage(tool)), Some(10), Required(tool)) && RulesOk(config.rules)
    requires Complete(Filled(lines), 10, Some(MainPackage(tool)))
    ensures ToolOk(config, lines) <==> AdvisoriesKept(tool, lines)
  {
    hide MainPackage, Required, RulesOk, Filled, ToolOk, AdvisoriesKept, AllSafe, Framed, Records, HasBuild;
    RulesSafeIff(config, lines);
    RequiredAre(tool, lines, Some(MainPackage(tool)));
  }

  /** The words that begin the lines of a body. */
  lemma WordsAre(word: string)
    ensures KindOf(word) == PathLine <==> word == "path"
    ensures KindOf(word) == BuildLine <==> word == "build"
    ensures KindOf(word) == ModLine <==> word == "mod"
    ensures KindOf(word) == DepLine <==> word == "dep"
    ensures KindOf(word) == Replacement <==> word == "=>"
  {
    assert "dep"[0] == 'd' && "mod"[0] == 'm' && "=>"[0] == '=' && "path"[0] == 'p' && "build"[0] == 'b';
  }

  lemma PackagesAre()
    ensures MainPackage(Trivy) == "github.com/aquasecurity/trivy/cmd/trivy"
    ensures MainPackage(Grype) == "github.com/anchore/grype/cmd/grype"
    ensures MainPackage(Syft) == "github.com/anchore/syft/cmd/syft"
    ensures MainPackage(Gitleaks) == "github.com/zricethezav/gitleaks/v8"
  {
  }

  /** What an accepted policy says whatever else it adds: the alerts 48 and 50 stay open, nothing
      closes an alert, every tool has at least ten modules and its own main package. */
  lemma AcceptedPolicyMeans(p: Policy)
    requires PolicyOk(p)
    ensures p.schema == 1 && p.semantics.reachabilityOnly == Some(true) && p.semantics.dependabotClosure == Some(false)
    ensures 48 in p.semantics.preserved && 50 in p.semantics.preserved && p.semantics.gatesKept
    ensures p.tools.Keys == {Trivy, Grype, Syft, Gitleaks}
    ensures forall t | t in p.tools ::
      && p.tools[t].main == Some(MainPackage(t)) && p.tools[t].minimumCount.Some? && p.tools[t].minimumCount.value >= 10
      && (forall i | 0 <= i < |p.tools[t].rules| :: p.tools[t].rules[i].id != "" && !p.tools[t].rules[i].closure)
      && (forall i, j | 0 <= i < j < |p.tools[t].rules| :: p.tools[t].rules[i].id != p.tools[t].rules[j].id)
  {
    hide MainPackage, Required, AllKept;
    assert forall t | t in p.tools :: ConfigOk(t, p.tools[t]);
  }
}
