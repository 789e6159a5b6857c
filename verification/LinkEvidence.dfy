/** The output of go version -m for one binary (parse_go_version_m of
    scripts/security/final_audit_reachability.py), line by line. */
module LinkEvidence {
  import opened Prelude

  /** A stripped line: whether the header pattern matches all of it, and its fields. A blank line
      has none. */
  datatype Line = Line(header: bool, fields: seq<string>)

  datatype Kind = PathLine | BuildLine | ModLine | DepLine | Replacement | OtherLine

  datatype LinkedModule = LinkedModule(name: string, version: string,
                                       replaced: Option<string>, replacedVersion: Option<string>)

  function KindOf(word: string): Kind {
    if word == "path" then PathLine
    else if word == "build" then BuildLine
    else if word == "mod" then ModLine
    else if word == "dep" then DepLine
    else if word == "=>" then Replacement
    else OtherLine
  }

  predicate Is(line: Line, kind: Kind) { line.fields != [] && !line.header && KindOf(line.fields[0]) == kind }

  predicate IsDep(line: Line) { Is(line, DepLine) && |line.fields| >= 3 }

  predicate IsReplacement(line: Line) { Is(line, Replacement) && |line.fields| >= 2 }

  /** The lines that are not blank. */
  function Filled(lines: seq<Line>): (r: seq<Line>) {
    if lines == [] then []
    else if lines[|lines| - 1].fields == [] then Filled(lines[..|lines| - 1])
    else Filled(lines[..|lines| - 1]) + [lines[|lines| - 1]]
  }

  // ----- what complete evidence is -----

  predicate NoBuildBefore(L: seq<Line>, i: nat)
    requires i <= |L|
  {
    forall j | 2 <= j < i :: !Is(L[j], BuildLine)
  }

  predicate NewName(L: seq<Line>, i: nat)
    requires i < |L| && IsDep(L[i])
  {
    forall j | 2 <= j < i && IsDep(L[j]) :: L[j].fields[1] != L[i].fields[1]
  }

  /** Line i of the body is in its place: build lines come last, a replacement stands right after
      the dependency it replaces, and no module is listed twice. */
  predicate InPlace(L: seq<Line>, i: nat)
    requires 2 <= i < |L|
  {
    || (Is(L[i], BuildLine) && |L[i].fields| >= 2)
    || (Is(L[i], ModLine) && |L[i].fields| >= 3 && NoBuildBefore(L, i))
    || (IsDep(L[i]) && NoBuildBefore(L, i) && NewName(L, i))
    || (IsReplacement(L[i]) && IsDep(L[i - 1]) && i > 2 && NoBuildBefore(L, i))
  }

  predicate IsPathOf(line: Line, main: Option<string>) {
    Is(line, PathLine) && |line.fields| == 2 && (main.Some? ==> line.fields[1] == main.value)
  }

  /** One header, then one path line, then the body. */
  predicate Framed(L: seq<Line>, main: Option<string>) {
    && (|L| > 0 ==> L[0].header)
    && (|L| > 1 ==> IsPathOf(L[1], main))
    && (forall i | 2 <= i < |L| :: InPlace(L, i))
  }

  predicate HasBuild(L: seq<Line>) { exists i | 2 <= i < |L| :: Is(L[i], BuildLine) }

  // ----- what it says -----

  /** The module of dependency line i, with the replacement on the next line if there is one. */
  function ModuleAt(L: seq<Line>, i: nat): LinkedModule
    requires i < |L| && IsDep(L[i])
  {
    if i + 1 < |L| && IsReplacement(L[i + 1]) then Replaced(L[i], L[i + 1])
    else LinkedModule(L[i].fields[1], L[i].fields[2], None, None)
  }

  function Replaced(dep: Line, line: Line): LinkedModule
    requires IsDep(dep) && IsReplacement(line)
  {
    LinkedModule(dep.fields[1], dep.fields[2], Some(line.fields[1]),
      if |line.fields| >= 3 && line.fields[2] != "" && line.fields[2][0] == 'v' then Some(line.fields[2]) else None)
  }

  predicate Listed(L: seq<Line>, name: string) {
    exists i | 2 <= i < |L| :: IsDep(L[i]) && L[i].fields[1] == name
  }

  /** The map has exactly the modules of the dependency lines. */
  predicate Records(L: seq<Line>, modules: map<string, LinkedModule>) {
    && (forall i | 2 <= i < |L| && IsDep(L[i]) ::
        L[i].fields[1] in modules && modules[L[i].fields[1]] == ModuleAt(L, i))
    && (forall name | name in modules :: Listed(L, name))
  }

  /** Evidence for one binary with a build section and enough dependencies. */
  ghost predicate Complete(L: seq<Line>, minimum: int, main: Option<string>) {
    Framed(L, main) && |L| > 1 && HasBuild(L) && forall m | Records(L, m) :: |m| >= minimum
  }

  /** Two maps that record the same lines are the same. */
  lemma RecordsUnique(L: seq<Line>, a: map<string, LinkedModule>, b: map<string, LinkedModule>)
    requires Records(L, a) && Records(L, b)
    ensures a == b
  {
    forall name ensures (name in a <==> name in b) && (name in a ==> a[name] == b[name]) {
      if name in a || name in b {
        var i :| 2 <= i < |L| && IsDep(L[i]) && L[i].fields[1] == name;
      }
    }
  }

  // ----- the parser -----

  /** The variables of the loop. */
  datatype Scan = Scan(modules: map<string, LinkedModule>, current: Option<string>,
                       headerSeen: bool, pathLines: nat, buildLines: nat)

  /** The variables say what the lines so far say. */
  ghost predicate Tracks(s: Scan, L: seq<Line>, main: Option<string>) {
    && Framed(L, main) && Records(L, s.modules)
    && (s.headerSeen <==> |L| > 0)
    && s.pathLines == (if |L| > 1 then 1 else 0)
    && (s.buildLines > 0 <==> HasBuild(L))
    && s.current == (if |L| > 2 && IsDep(L[|L| - 1]) then Some(L[|L| - 1].fields[1]) else None)
  }

  lemma FramedMore(L: seq<Line>, line: Line, main: Option<string>)
    requires |L| >= 2
    ensures Framed(L + [line], main) <==> Framed(L, main) && InPlace(L + [line], |L|)
    ensures NoBuildBefore(L + [line], |L|) <==> !HasBuild(L)
    ensures HasBuild(L + [line]) <==> HasBuild(L) || Is(line, BuildLine)
  {
    var M := L + [line];
    assert forall j | 0 <= j < |L| :: M[j] == L[j];
    assert M[|L|] == line;
    forall i | 2 <= i < |L| ensures InPlace(M, i) <==> InPlace(L, i) { SamePlace(L, M, i); }
  }

  lemma NewNameMeans(L: seq<Line>, line: Line, modules: map<string, LinkedModule>)
    requires |L| >= 2 && IsDep(line) && Records(L, modules)
    ensures NewName(L + [line], |L|) <==> line.fields[1] !in modules
  {
    var M := L + [line];
    assert forall j | 0 <= j < |L| :: M[j] == L[j];
    if line.fields[1] in modules {
      assert Listed(L, line.fields[1]);
      var j :| 2 <= j < |L| && IsDep(L[j]) && L[j].fields[1] == line.fields[1];
      assert IsDep(M[j]);
    }
  }

  lemma ListedMore(L: seq<Line>, line: Line, name: string)
    requires |L| >= 2
    ensures Listed(L + [line], name) <==> Listed(L, name) || (IsDep(line) && line.fields[1] == name)
  {
    var M := L + [line];
    assert forall j | 0 <= j < |L| :: M[j] == L[j];
    assert M[|L|] == line;
  }

  lemma RecordsPlain(L: seq<Line>, line: Line, modules: map<string, LinkedModule>)
    requires |L| >= 2 && !IsDep(line) && Records(L, modules)
    requires IsReplacement(line) && |L| > 2 ==> !IsDep(L[|L| - 1])
    ensures Records(L + [line], modules)
  {
    var M := L + [line];
    forall i | 2 <= i < |M| && IsDep(M[i])
      ensures M[i].fields[1] in modules && modules[M[i].fields[1]] == ModuleAt(M, i)
    {
      assert M[i] == L[i];
      if i + 1 < |L| { assert M[i + 1] == L[i + 1]; }
    }
    forall name | name in modules ensures Listed(M, name) { ListedMore(L, line, name); }
  }

  lemma RecordsDep(L: seq<Line>, line: Line, modules: map<string, LinkedModule>)
    requires |L| >= 2 && IsDep(line) && Records(L, modules) && line.fields[1] !in modules
    ensures Records(L + [line], modules[line.fields[1] := LinkedModule(line.fields[1], line.fields[2], None, None)])
  {
    var M, name := L + [line], line.fields[1];
    var more := modules[name := LinkedModule(name, line.fields[2], None, None)];
    assert !IsReplacement(line);
    forall i | 2 <= i < |M| && IsDep(M[i]) ensures M[i].fields[1] in more && more[M[i].fields[1]] == ModuleAt(M, i) {
      if i < |L| {
        assert M[i] == L[i];
        if i + 1 < |L| { assert M[i + 1] == L[i + 1]; }
      }
    }
    forall k | k in more ensures Listed(M, k) { ListedMore(L, line, k); }
  }

  lemma LastIsNew(L: seq<Line>, main: Option<string>)
    requires |L| > 2 && IsDep(L[|L| - 1]) && Framed(L, main)
    ensures NewName(L, |L| - 1)
  {
    assert InPlace(L, |L| - 1);
  }

  lemma RecordsReplacement(L: seq<Line>, line: Line, modules: map<string, LinkedModule>, main: Option<string>)
    requires |L| > 2 && IsReplacement(line) && Records(L, modules) && IsDep(L[|L| - 1]) && Framed(L, main)
    ensures Records(L + [line], modules[L[|L| - 1].fields[1] := Replaced(L[|L| - 1], line)])
  {
    var M, last := L + [line], |L| - 1;
    var name := L[last].fields[1];
    var more := modules[name := Replaced(L[last], line)];
    LastIsNew(L, main);
    hide Framed, InPlace, KindOf, Listed;
    forall i | 2 <= i < |M| && IsDep(M[i]) ensures M[i].fields[1] in more && more[M[i].fields[1]] == ModuleAt(M, i) {
      assert M[i] == L[i];
      if i < last { assert M[i + 1] == L[i + 1]; }
    }
    assert name in modules;
    forall k | k in more ensures Listed(M, k) { ListedMore(L, line, k); }
  }

  lemma LastRecorded(L: seq<Line>, modules: map<string, LinkedModule>)
    requires |L| > 2 && Records(L, modules) && IsDep(L[|L| - 1])
    ensures var name := L[|L| - 1].fields[1];
      name in modules && modules[name] == LinkedModule(name, L[|L| - 1].fields[2], None, None)
  {
  }

  /** Framed lines have a module map. */
  lemma {:induction false} RecordsExist(L: seq<Line>, main: Option<string>) returns (modules: map<string, LinkedModule>)
    requires Framed(L, main)
    ensures Records(L, modules)
  {
    modules := map[];
    if |L| > 2 {
      var P, line := L[..|L| - 1], L[|L| - 1];
      assert L == P + [line];
      FramedMore(P, line, main);
      modules := RecordsExist(P, main);
      hide Records, Framed;
      if IsDep(line) {
        NewNameMeans(P, line, modules);
        RecordsDep(P, line, modules);
        modules := modules[line.fields[1] := LinkedModule(line.fields[1], line.fields[2], None, None)];
      } else if IsReplacement(line) && |P| > 2 && IsDep(P[|P| - 1]) {
        RecordsReplacement(P, line, modules, main);
        modules := modules[P[|P| - 1].fields[1] := Replaced(P[|P| - 1], line)];
      } else {
        RecordsPlain(P, line, modules);
      }
    }
  }

  method ParseGoVersionM(lines: seq<Line>, minimum: int, main: Option<string>)
      returns (r: Result<map<string, LinkedModule>>)
    ensures r.Ok? <==> Complete(Filled(lines), minimum, main)
    ensures r.Ok? ==> Records(Filled(lines), r.value)
  {
    var s := Scan(map[], None, false, 0, 0);
    var n := 0;
    while n < |lines|
      invariant n <= |lines|
      invariant Tracks(s, Filled(lines[..n]), main)
    {
      assert lines[..n + 1][..n] == lines[..n];
      if lines[n].fields != [] {
        var next := Step(s, lines[n], main, Filled(lines[..n]));
        if next.None? {
          FramedPrefix(lines, n + 1, main);
          return Err("malformed evidence");
        }
        s := next.value;
      }
      n := n + 1;
    }
    assert lines[..n] == lines;
    if !s.headerSeen || s.pathLines != 1 || s.buildLines < 1 {
      return Err("evidence does not look complete");
    }
    forall m | Records(Filled(lines), m) ensures m == s.modules { RecordsUnique(Filled(lines), m, s.modules); }
    if |s.modules| < minimum {
      return Err("dependency evidence is too small");
    }
    return Ok(s.modules);
  }

  /** One line: the new variables, or None where the source raises. */
  method Step(s: Scan, line: Line, main: Option<string>, ghost L: seq<Line>) returns (next: Option<Scan>)
    requires line.fields != [] && Tracks(s, L, main)
    ensures match next
      case Some(t) => Tracks(t, L + [line], main)
      case None => !Framed(L + [line], main)
  {
    ghost var M := L + [line];
    if !s.headerSeen {
      if !line.header { return None; }
      return Some(s.(headerSeen := true));
    }
    if |L| >= 2 { FramedMore(L, line, main); }
    if line.header { return None; }
    var fields := line.fields;
    var kind := KindOf(fields[0]);
    if kind == PathLine {
      if |fields| != 2 || s.pathLines > 0 || s.buildLines > 0 { return None; }
      if main.Some? && fields[1] != main.value { return None; }
      return Some(s.(pathLines := s.pathLines + 1, current := None));
    }
    if s.pathLines != 1 { return None; }
    next := BodyStep(s, line, kind, main, L);
  }

  method BodyStep(s: Scan, line: Line, kind: Kind, main: Option<string>, ghost L: seq<Line>)
      returns (next: Option<Scan>)
    requires line.fields != [] && !line.header && kind == KindOf(line.fields[0]) && kind != PathLine
    requires Tracks(s, L, main) && s.pathLines == 1
    ensures match next
      case Some(t) => Tracks(t, L + [line], main)
      case None => !Framed(L + [line], main)
  {
    var fields := line.fields;
    FramedMore(L, line, main);
    hide Framed, HasBuild, Records, NoBuildBefore;
    if kind == BuildLine {
      RecordsPlain(L, line, s.modules);
      if |fields| < 2 { return None; }
      return Some(s.(buildLines := s.buildLines + 1, current := None));
    }
    if s.buildLines > 0 { return None; }
    if kind == ModLine {
      if |fields| < 3 { return None; }
      RecordsPlain(L, line, s.modules);
      return Some(s.(current := None));
    }
    if kind == DepLine {
      if |fields| >= 3 { NewNameMeans(L, line, s.modules); }
      if |fields| < 3 || fields[1] in s.modules { return None; }
      var m := LinkedModule(fields[1], fields[2], None, None);
      RecordsDep(L, line, s.modules);
      return Some(s.(modules := s.modules[fields[1] := m], current := Some(fields[1])));
    }
    if kind == Replacement {
      if s.current.None? || |fields| < 2 { return None; }
      var version := if |fields| >= 3 && fields[2] != "" && fields[2][0] == 'v' then Some(fields[2]) else None;
      RecordsReplacement(L, line, s.modules, main);
      LastRecorded(L, s.modules);
      var previous := s.modules[s.current.value];
      var m := LinkedModule(previous.name, previous.version, Some(fields[1]), version);
      return Some(s.(modules := s.modules[s.current.value := m], current := None));
    }
    return None;
  }

  lemma {:induction false} FilledPrefix(lines: seq<Line>, n: nat)
    requires n <= |lines|
    ensures Filled(lines[..n]) <= Filled(lines)
    decreases |lines| - n
  {
    if n < |lines| {
      FilledPrefix(lines, n + 1);
      assert lines[..n + 1][..n] == lines[..n];
    } else {
      assert lines[..n] == lines;
    }
  }

  lemma FramedPrefix(lines: seq<Line>, n: nat, main: Option<string>)
    requires n <= |lines| && !Framed(Filled(lines[..n]), main)
    ensures !Framed(Filled(lines), main)
  {
    FilledPrefix(lines, n);
    var P, L := Filled(lines[..n]), Filled(lines);
    if Framed(L, main) {
      forall i | 2 <= i < |P| ensures InPlace(P, i) {
        assert InPlace(L, i);
        SamePlace(P, L, i);
      }
    }
  }

  lemma SamePlace(P: seq<Line>, L: seq<Line>, i: nat)
    requires P <= L && 2 <= i < |P|
    ensures InPlace(P, i) <==> InPlace(L, i)
  {
    assert forall j | 0 <= j < |P| :: P[j] == L[j];
  }
}
