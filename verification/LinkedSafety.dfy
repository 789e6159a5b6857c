/** What PASS says about everything a binary is linked from.  The evaluation of
    scripts/security/final_audit_reachability.py looks at the names on dependency lines only, so
    the target of a replacement line and the main module escape it. */
module LinkedSafety {
  import opened Prelude
  import opened LinkEvidence
  import opened Reachability
  import SemVer

  /** A module that is in the binary; a replacement by a directory has no version. */
  datatype Linked = Linked(name: string, version: Option<string>)

  /** Line i names a module that is in the binary: the main module, a dependency that is not
      replaced, or what a dependency is replaced by. */
  predicate Links(L: seq<Line>, i: nat)
    requires i < |L|
  {
    || (Is(L[i], ModLine) && |L[i].fields| >= 3)
    || (IsDep(L[i]) && !(i + 1 < |L| && IsReplacement(L[i + 1])))
    || IsReplacement(L[i])
  }

  function LinkedAt(L: seq<Line>, i: nat): Linked
    requires i < |L| && Links(L, i)
  {
    if IsReplacement(L[i]) then Linked(L[i].fields[1], ReplacementVersion(L[i]))
    else Linked(L[i].fields[1], Some(L[i].fields[2]))
  }

  /** The version of a replacement that is a module. */
  function ReplacementVersion(line: Line): Option<string>
    requires IsReplacement(line)
  {
    if |line.fields| >= 3 && line.fields[2] != "" && line.fields[2][0] == 'v' then Some(line.fields[2]) else None
  }

  /** A floor rule is met by the version or a later one, an absence rule by nothing. */
  predicate Satisfies(rule: Rule, m: Linked) {
    && rule.mode != Absent && rule.minimum.Some? && m.version.Some?
    && SemVer.AtLeast(m.version.value, rule.minimum.value) == Some(true)
  }

  /** The rule holds for everything the binary is linked from. */
  ghost predicate LinkedSafe(rule: Rule, lines: seq<Line>) {
    var L := Filled(lines);
    forall i | 2 <= i < |L| && Links(L, i) && Targets(rule, LinkedAt(L, i).name) :: Satisfies(rule, LinkedAt(L, i))
  }

  /** The rule holds for what the evaluation does not look at. */
  ghost predicate OverlookedSafe(rule: Rule, lines: seq<Line>) {
    var L := Filled(lines);
    forall i | 2 <= i < |L| && Links(L, i) && !IsDep(L[i]) && Targets(rule, LinkedAt(L, i).name) ::
      Satisfies(rule, LinkedAt(L, i))
  }

  lemma SafeWhereLooked(rule: Rule, lines: seq<Line>)
    requires Safe(rule, lines)
    ensures LinkedSafe(rule, lines) <==> OverlookedSafe(rule, lines)
  {
    var L := Filled(lines);
    hide Targets, SemVer.AtLeast, Filled, KindOf;
    forall i | 2 <= i < |L| && Links(L, i) && IsDep(L[i]) && Targets(rule, LinkedAt(L, i).name)
      ensures Satisfies(rule, LinkedAt(L, i))
    {
      DepIsNoReplacement(L[i]);
      assert AtFloor(rule, ModuleAt(L, i));
    }
  }

  lemma DepIsNoReplacement(line: Line)
    requires IsDep(line)
    ensures !IsReplacement(line)
  {
  }

  /** Under an accepted policy and PASS, a built-in rule holds for everything linked if and only if
      every replacement line and main-module line whose module the rule targets is at the floor;
      for an absence rule, if and only if there is no such line. */
  lemma PassIsLinkedSafeIff(p: Policy, evidence: map<Tool, seq<Line>>, tool: Tool, k: nat)
    requires PolicyOk(p) && Passed(p, evidence)
    requires tool in PINNED && k < |Required(tool)|
    ensures LinkedSafe(Required(tool)[k], evidence[tool]) <==> OverlookedSafe(Required(tool)[k], evidence[tool])
  {
    hide Required, ToolRefused, ToolPasses, Safe, LinkedSafe, OverlookedSafe, ConfigOk;
    PassIsSafe(p, evidence, tool, k);
    SafeWhereLooked(Required(tool)[k], evidence[tool]);
  }

  // ----- evidence that passes although a forbidden module is linked -----

  /** Ten more modules no built-in rule looks at: "p" to "y". */
  function Padding(i: nat): string
    requires i < 10
  {
    [(112 + i) as char]
  }

  function DepOf(name: string): Line { Line(false, ["dep", name, "v0.0.0"]) }

  function ForkLine(): Line { DepOf("example.com/fork") }

  function DockerLine(): Line { Line(false, ["=>", "github.com/docker/docker", "v20.10.0+incompatible"]) }

  /** One complete binary of a tool, with the legacy Docker module behind a replacement. */
  function Sample(tool: Tool): seq<Line> {
    [Line(true, ["tool:", "go1.26"]), Line(false, ["path", MainPackage(tool)]), ForkLine(), DockerLine()]
    + seq(10, i requires 0 <= i < 10 => DepOf(Padding(i))) + [Line(false, ["build", "x"])]
  }

  function SampleEvidence(): map<Tool, seq<Line>> { map t | t in PINNED :: Sample(t) }

  /** What kind of line each one is. */
  lemma SampleLines(tool: Tool)
    ensures var L := Sample(tool);
      && |L| == 15 && L[0].header && L[0].fields != [] && IsPathOf(L[1], Some(MainPackage(tool)))
      && IsDep(L[2]) && IsReplacement(L[3]) && L[3] == DockerLine()
      && (forall i | 4 <= i < 14 :: L[i] == DepOf(Padding(i - 4)) && IsDep(L[i]))
      && Is(L[14], BuildLine) && |L[14].fields| == 2
  {
    hide MainPackage;
  }

  predicate AwayFromG(name: string) { name == "" || name[0] != 'g' }

  lemma SampleNames(tool: Tool)
    ensures var L := Sample(tool);
      && (forall i | 2 <= i < |L| && IsDep(L[i]) :: AwayFromG(L[i].fields[1]))
      && (forall i | 2 <= i < |L| && IsDep(L[i]) :: i == 2 || 4 <= i < 14)
      && (forall i, j | 2 <= i < j < |L| && IsDep(L[i]) && IsDep(L[j]) :: L[i].fields[1] != L[j].fields[1])
  {
    SampleLines(tool);
    hide MainPackage;
    var L := Sample(tool);
    assert |L[2].fields[1]| == 16 && L[2].fields[1][0] == 'e';
    forall i | 4 <= i < 14 ensures L[i].fields[1] == Padding(i - 4) {}
    assert !IsDep(L[3]) && !IsDep(L[14]);
  }

  lemma {:induction false} AllFilled(lines: seq<Line>)
    requires forall i | 0 <= i < |lines| :: lines[i].fields != []
    ensures Filled(lines) == lines
  {
    if lines != [] {
      AllFilled(lines[..|lines| - 1]);
      assert lines == lines[..|lines| - 1] + [lines[|lines| - 1]];
    }
  }

  lemma SampleFramed(tool: Tool)
    ensures Filled(Sample(tool)) == Sample(tool) && HasBuild(Sample(tool))
    ensures Framed(Sample(tool), Some(MainPackage(tool)))
  {
    var L := Sample(tool);
    SampleLines(tool);
    SampleNames(tool);
    hide Sample, KindOf, MainPackage, DockerLine, ForkLine, DepOf;
    forall i | 0 <= i < |L| ensures L[i].fields != [] {
      if 4 <= i < 14 { assert IsDep(L[i]); }
    }
    AllFilled(L);
    KindsDiffer();
    forall i | 2 <= i < |L| ensures InPlace(L, i) {
      forall j | 2 <= j < i ensures !Is(L[j], BuildLine) {
        if 4 <= j < 14 { assert IsDep(L[j]); }
      }
    }
  }

  lemma KindsDiffer()
    ensures forall line: Line :: !(IsDep(line) && Is(line, BuildLine)) && !(IsReplacement(line) && Is(line, BuildLine))
  {
    hide KindOf;
  }

  /** The ten padding modules are recorded. */
  lemma SampleIsLarge(tool: Tool, modules: map<string, LinkedModule>)
    requires Records(Sample(tool), modules)
    ensures |modules| >= 10
  {
    var L := Sample(tool);
    SampleLines(tool);
    forall i | 0 <= i < 10 ensures Padding(i) in modules {
      assert L[i + 4] == DepOf(Padding(i));
    }
    PaddingCount(10, modules.Keys);
  }

  lemma {:induction false} PaddingCount(n: nat, keys: set<string>)
    requires n <= 10 && forall i | 0 <= i < n :: Padding(i) in keys
    ensures |keys| >= n
  {
    if n > 0 {
      forall i | 0 <= i < n - 1 ensures Padding(i) in keys - {Padding(n - 1)} {
        assert Padding(i)[0] != Padding(n - 1)[0];
      }
      PaddingCount(n - 1, keys - {Padding(n - 1)});
    }
  }

  predicate TargetsG(rule: Rule) {
    && (rule.name.Some? ==> !AwayFromG(rule.name.value))
    && (rule.prefix.Some? ==> !AwayFromG(rule.prefix.value))
  }

  lemma RequiredTargetsG(tool: Tool, k: nat)
    requires k < |Required(tool)|
    ensures TargetsG(Required(tool)[k])
  {
    hide IdOf;
  }

  lemma NothingTargeted(rule: Rule, name: string)
    requires TargetsG(rule) && AwayFromG(name)
    ensures !Targets(rule, name)
  {
  }

  lemma SampleEscapes(tool: Tool, rule: Rule, modules: map<string, LinkedModule>)
    requires RuleOk(rule) && TargetsG(rule) && Records(Sample(tool), modules)
    ensures !AnyRefused(rule, modules) && Holds(rule, modules)
  {
    hide RuleOk, Refused, Meets, Targets, TargetsG, Sample;
    SampleNames(tool);
    forall name | name in modules ensures !Targets(rule, name) {
      assert Listed(Sample(tool), name);
      NothingTargeted(rule, name);
    }
  }

  /** The sample of each tool passes the built-in rules. */
  lemma SamplePasses(tool: Tool)
    requires tool in PINNED
    ensures var config := BuiltIn([48, 50]).tools[tool];
      ConfigOk(tool, config) && !ToolRefused(config, Sample(tool)) && ToolPasses(config, Sample(tool))
  {
    RequiredSuffices(tool);
    SampleFramed(tool);
    SampleLines(tool);
    hide Sample, Required, RuleOk, MainPackage, AllKept, Framed, Records, HasBuild, AnyRefused, Holds, TargetsG;
    var config := BuiltIn([48, 50]).tools[tool];
    assert config == Config(Some(MainPackage(tool)), Some(MINIMUM_LINKED_DEPENDENCIES), Required(tool));
    forall modules | Records(Sample(tool), modules) ensures |modules| >= 10 { SampleIsLarge(tool, modules); }
    forall modules, i | Records(Sample(tool), modules) && 0 <= i < |Required(tool)|
      ensures !AnyRefused(Required(tool)[i], modules) && Holds(Required(tool)[i], modules)
    {
      RequiredTargetsG(tool, i);
      SampleEscapes(tool, Required(tool)[i], modules);
    }
  }

  /** Evidence that passes the whole evaluation under the built-in policy, although the module that
      must not be linked into Trivy is linked, as the replacement of another one. */
  lemma ReplacementEscapes()
    ensures var p := BuiltIn([48, 50]);
      && PolicyOk(p) && SampleEvidence().Keys == p.tools.Keys
      && (forall t | t in p.tools ::
          RulesOk(p.tools[t].rules) && p.tools[t].minimumCount.Some?
          && !ToolRefused(p.tools[t], SampleEvidence()[t]) && ToolPasses(p.tools[t], SampleEvidence()[t]))
      && |Required(Trivy)| > 0 && Required(Trivy)[0].mode == Absent
      && Safe(Required(Trivy)[0], Sample(Trivy)) && !LinkedSafe(Required(Trivy)[0], Sample(Trivy))
  {
    var p := BuiltIn([48, 50]);
    BuiltInIsAccepted();
    assert Required(Trivy)[0].mode == Absent && Targets(Required(Trivy)[0], DockerLine().fields[1]);
    SampleLines(Trivy);
    SampleFramed(Trivy);
    hide Sample, Required, MainPackage, ToolRefused, ToolPasses, Targets, KindOf, DockerLine, ConfigOk;
    forall t | t in p.tools
      ensures RulesOk(p.tools[t].rules) && p.tools[t].minimumCount.Some?
      ensures !ToolRefused(p.tools[t], SampleEvidence()[t]) && ToolPasses(p.tools[t], SampleEvidence()[t])
    {
      PolicyTools(p);
      SamplePasses(t);
    }
    PassIsSafe(p, SampleEvidence(), Trivy, 0);
    assert Links(Sample(Trivy), 3);
  }
}
