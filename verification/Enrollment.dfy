/** Run accounting over the anchored prefix of the event journal (_event_run and verify_bundle of
    scripts/security/fr06_execution_enrollment.py). */
module Enrollment {
  import opened Prelude
  import Guard = GuardJournal
  import Facts = GuardJournalFacts

  datatype Role = Scheduled | Watchdog | Interactive

  datatype Phase = Started | Terminal

  /** A run's phase named by an event. */
  datatype Run = Run(name: string, phase: Phase)

  /** An evidence path: a receipt of a run, spelled canonically or not, or something else. */
  datatype Ref = Receipt(run: Run, canonical: bool) | OtherRef

  /** What an event identity of the older records says: role, phase and the run's name. */
  datatype Legacy = Legacy(role: Role, run: Run)

  datatype Ending = StartEnding | TerminalEnding | EndEnding | PlainEnding

  datatype PhaseField = NoPhase | Known(phase: Phase) | UnknownPhase

  /** A correction names the event it sets aside; `sealed` says that its digest, scope and source
      are the required ones. */
  datatype Correction = NotACorrection | Correction(target: Option<string>, sealed: bool)

  /** One line of the journal; `enrolls` says that its type, task and source commit are those of a
      route enrollment. */
  datatype Event = Event(id: string, invocation: Option<Role>, phase: PhaseField, refs: seq<Ref>,
    placeholderSource: bool, correction: Correction, runField: Option<string>, enrolls: bool)

  // ----- what an identity says -----

  predicate EndsWith(text: string, end: string) { |end| <= |text| && text[|text| - |end|..] == end }

  /** The phase word that the identity ends with. */
  function EndingOf(id: string): Ending {
    if EndsWith(id, "-terminal") then TerminalEnding
    else if EndsWith(id, "-end") then EndEnding
    else if EndsWith(id, "-started") || EndsWith(id, "-start") then StartEnding
    else PlainEnding
  }

  function RoleName(role: Role): string {
    match role
    case Scheduled => "scheduled"
    case Watchdog => "watchdog"
    case Interactive => "interactive"
  }

  /** The role that a text begins with, and what follows it and a hyphen. */
  function RoleIn(text: string): Option<(Role, string)> {
    if "scheduled-" <= text then Some((Scheduled, text[10..]))
    else if "watchdog-" <= text then Some((Watchdog, text[9..]))
    else if "interactive-" <= text then Some((Interactive, text[12..]))
    else None
  }

  /** The phase word that a text begins with, and what follows it and a hyphen. */
  function WordIn(text: string): Option<(Phase, string)> {
    if "start-" <= text then Some((Started, text[6..]))
    else if "started-" <= text then Some((Started, text[8..]))
    else if "end-" <= text then Some((Terminal, text[4..]))
    else if "terminal-" <= text then Some((Terminal, text[9..]))
    else None
  }

  predicate Suffix(text: string) { text != "" && forall i | 0 <= i < |text| :: Guard.NameChar(text[i]) }

  /** An older identity: "fr06-", the role, the phase word and the rest of the run's name. */
  function LegacyOf(id: string): Option<Legacy> {
    if !("fr06-" <= id) then None
    else match RoleIn(id[5..])
      case None => None
      case Some((role, rest)) =>
        (match WordIn(rest)
         case None => None
         case Some((phase, suffix)) =>
           if Suffix(suffix) then Some(Legacy(role, Run(RoleName(role) + "-" + suffix, phase))) else None)
  }

  // ----- which run an event speaks of -----

  predicate Contains(text: string, part: string) {
    exists i | 0 <= i <= |text| :: part <= text[i..]
  }

  predicate Matches(e: Event, r: Ref) {
    r.Receipt? && Guard.IsRunId(r.run.name) &&
    match LegacyOf(e.id)
    case Some(l) => r.run.name == l.run.name
    case None => Contains(e.id, r.run.name)
  }

  /** The phase the event's fields or identity insist on. */
  function PhaseOf(e: Event): Option<Phase> {
    if LegacyOf(e.id).Some? then Some(LegacyOf(e.id).value.run.phase)
    else if e.phase.Known? then Some(e.phase.phase)
    else match EndingOf(e.id)
      case TerminalEnding => Some(Terminal)
      case EndEnding => Some(Terminal)
      case StartEnding => Some(Started)
      case PlainEnding => None
  }

  function Named(e: Event): set<Run> {
    set r | r in e.refs && Matches(e, r) && (PhaseOf(e).Some? ==> r.run.phase == PhaseOf(e).value) :: r.run
  }

  predicate LegacyOk(e: Event, l: Legacy) {
    Guard.IsRunId(l.run.name) && e.invocation == Some(l.role) && (e.phase == NoPhase || e.phase == Known(l.run.phase))
  }

  predicate Readable(e: Event) {
    && (LegacyOf(e.id).Some? ==> LegacyOk(e, LegacyOf(e.id).value))
    && (forall r | r in e.refs && Matches(e, r) :: r.canonical)
    && |Named(e)| <= 1
    && (LegacyOf(e.id).Some? ==> Named(e) == {LegacyOf(e.id).value.run})
  }

  /** _event_run: the run and phase as a set of at most one, or an error. */
  method EventRun(e: Event) returns (r: Result<set<Run>>)
    ensures r == if Readable(e) then Ok(Named(e)) else Err("enrollment blocked")
  {
    if LegacyOf(e.id).Some? && !LegacyOk(e, LegacyOf(e.id).value) {
      return Err("enrollment blocked");
    }
    var selected: set<Run> := {};
    var n := 0;
    while n < |e.refs|
      invariant n <= |e.refs|
      invariant selected == set k | 0 <= k < n && Matches(e, e.refs[k]) :: e.refs[k].run
      invariant forall k | 0 <= k < n && Matches(e, e.refs[k]) :: e.refs[k].canonical
    {
      if Matches(e, e.refs[n]) {
        if !e.refs[n].canonical { return Err("enrollment blocked"); }
        selected := selected + {e.refs[n].run};
      }
      n := n + 1;
    }
    var phase := PhaseOf(e);
    if phase.Some? {
      selected := set x | x in selected && x.phase == phase.value;
    }
    assert selected == Named(e) by { NamedAt(e); }
    if |selected| > 1 || (LegacyOf(e.id).Some? && selected != {LegacyOf(e.id).value.run}) {
      return Err("enrollment blocked");
    }
    return Ok(selected);
  }

  lemma NamedAt(e: Event)
    ensures forall x :: x in Named(e) <==> exists k | 0 <= k < |e.refs| ::
      Matches(e, e.refs[k]) && e.refs[k].run == x && (PhaseOf(e).Some? ==> x.phase == PhaseOf(e).value)
  {
  }

  // ----- set-aside events -----

  function ById(events: seq<Event>, id: string): Option<Event> {
    if events == [] then None else if events[0].id == id then Some(events[0]) else ById(events[1..], id)
  }

  /** The event a correction may set aside: one whose identity and source were never filled in. */
  predicate Malformed(e: Event) { '$' in e.id && e.placeholderSource }

  predicate Corrects(events: seq<Event>, i: nat, id: string)
    requires i < |events|
  {
    events[i].correction.Correction? && events[i].correction.target == Some(id)
  }

  predicate CorrectionOk(events: seq<Event>, c: Correction) {
    c.Correction? ==>
      c.sealed && c.target.Some? && ById(events, c.target.value).Some? && Malformed(ById(events, c.target.value).value)
  }

  predicate CorrectionsOk(events: seq<Event>, n: nat)
    requires n <= |events|
  {
    && (forall i | 0 <= i < n :: CorrectionOk(events, events[i].correction))
    && (forall i, j | 0 <= i < j < n && events[i].correction.Correction? && events[j].correction.Correction? ::
      events[i].correction.target != events[j].correction.target)
  }

  /** The loop over the corrections. */
  method SetAside(events: seq<Event>) returns (r: Option<set<string>>)
    ensures r.Some? <==> CorrectionsOk(events, |events|)
    ensures r.Some? ==> forall id :: id in r.value <==> exists i | 0 <= i < |events| :: Corrects(events, i, id)
  {
    var quarantined: set<string> := {};
    var n := 0;
    while n < |events|
      invariant n <= |events| && CorrectionsOk(events, n)
      invariant forall id :: id in quarantined <==> exists i | 0 <= i < n :: Corrects(events, i, id)
    {
      var c := events[n].correction;
      if c.Correction? {
        if !CorrectionOk(events, c) { return None; }
        if c.target.value in quarantined { return None; }
        assert forall i | 0 <= i < n && events[i].correction.Correction? ::
          Corrects(events, i, events[i].correction.target.value);
        quarantined := quarantined + {c.target.value};
        assert Corrects(events, n, c.target.value);
      }
      n := n + 1;
    }
    return Some(quarantined);
  }

  // ----- accounting -----

  predicate Counts(e: Event, aside: set<string>) { e.id !in aside && e.invocation.Some? }

  predicate Explicit(e: Event) { e.phase.Known? || EndingOf(e.id) == StartEnding || EndingOf(e.id) == TerminalEnding }

  predicate EventOk(e: Event) {
    Readable(e) && '$' !in e.id && !e.placeholderSource && (Explicit(e) ==> Named(e) != {})
  }

  /** Event i speaks of this phase of this run. */
  predicate Says(events: seq<Event>, aside: set<string>, i: nat, run: Run)
    requires i < |events|
  {
    Counts(events[i], aside) && run in Named(events[i])
  }

  predicate AllOk(events: seq<Event>, aside: set<string>, n: nat)
    requires n <= |events|
  {
    forall i | 0 <= i < n && Counts(events[i], aside) :: EventOk(events[i])
  }

  /** The run has started before n and not ended since. */
  predicate Open(events: seq<Event>, aside: set<string>, n: nat, name: string)
    requires n <= |events|
  {
    exists i | 0 <= i < n :: Says(events, aside, i, Run(name, Started)) && Unended(events, aside, i, n, name)
  }

  predicate Unended(events: seq<Event>, aside: set<string>, i: nat, n: nat, name: string)
    requires i < n <= |events|
  {
    forall j | i < j < n :: !Says(events, aside, j, Run(name, Terminal))
  }

  /** Every start of a run is followed by an end of it. */
  ghost predicate AllFinished(events: seq<Event>, aside: set<string>) {
    forall i, name | 0 <= i < |events| && Says(events, aside, i, Run(name, Started)) ::
      EndsAfter(events, aside, i, name)
  }

  predicate EndsAfter(events: seq<Event>, aside: set<string>, i: nat, name: string) {
    exists j | i < j < |events| :: Says(events, aside, j, Run(name, Terminal))
  }

  /** The phases recorded for each run are those some event says. */
  ghost predicate Recorded(events: seq<Event>, aside: set<string>, n: nat, runs: map<string, set<Phase>>)
    requires n <= |events|
  {
    && (forall name | name in runs :: runs[name] != {})
    && forall name, p ::
        (name in runs && p in runs[name]) <==> exists i | 0 <= i < n :: Says(events, aside, i, Run(name, p))
  }

  /** The loop over the events with `pending` and `run_events`. */
  method Account(events: seq<Event>, aside: set<string>) returns (r: Option<map<string, set<Phase>>>)
    ensures r.Some? <==> AllOk(events, aside, |events|) && AllFinished(events, aside)
    ensures r.Some? ==> Recorded(events, aside, |events|, r.value)
  {
    var pending: set<string>, runs: map<string, set<Phase>> := {}, map[];
    var n := 0;
    NothingYet(events, aside);
    hide EventOk, Named, Counts, Recorded, Open, PendingAfter, RunsAfter, AllFinished;
    while n < |events|
      invariant n <= |events| && AllOk(events, aside, n)
      invariant forall name :: name in pending <==> Open(events, aside, n, name)
      invariant Recorded(events, aside, n, runs)
    {
      var run: set<Run> := {};
      if Counts(events[n], aside) {
        var said := OneEvent(events[n]);
        if said.None? { return None; }
        run := said.value;
      }
      AccountStep(events, aside, n, pending, runs, run);
      pending := PendingAfter(pending, run);
      runs := RunsAfter(runs, run);
      n := n + 1;
    }
    FinishedMeansNoneOpen(events, aside);
    if pending != {} {
      ghost var name :| name in pending;
      return None;
    }
    return Some(runs);
  }

  lemma NothingYet(events: seq<Event>, aside: set<string>)
    ensures Recorded(events, aside, 0, map[]) && forall name :: !Open(events, aside, 0, name)
  {
  }

  /** The checks on one event that counts; its run, if it speaks of one. */
  method OneEvent(e: Event) returns (run: Option<set<Run>>)
    ensures run == if EventOk(e) then Some(Named(e)) else None
    ensures run.Some? ==> |run.value| <= 1
  {
    var r := EventRun(e);
    if r.Err? { return None; }
    if '$' in e.id || e.placeholderSource { return None; }
    if Explicit(e) && r.value == {} { return None; }
    return Some(r.value);
  }

  function PendingAfter(pending: set<string>, run: set<Run>): set<string> {
    (pending - (set x | x in run && x.phase == Terminal :: x.name)) + (set x | x in run && x.phase == Started :: x.name)
  }

  function PhasesOf(runs: map<string, set<Phase>>, name: string): set<Phase> { if name in runs then runs[name] else {} }

  function RunsAfter(runs: map<string, set<Phase>>, run: set<Run>): map<string, set<Phase>> {
    map name | name in runs.Keys + (set x | x in run :: x.name) ::
      PhasesOf(runs, name) + (set x | x in run && x.name == name :: x.phase)
  }

  lemma AccountStep(events: seq<Event>, aside: set<string>, n: nat, pending: set<string>, runs: map<string, set<Phase>>,
                    run: set<Run>)
    requires n < |events| && Recorded(events, aside, n, runs) && |run| <= 1
    requires forall name :: name in pending <==> Open(events, aside, n, name)
    requires run == if Counts(events[n], aside) then Named(events[n]) else {}
    ensures forall name :: name in PendingAfter(pending, run) <==> Open(events, aside, n + 1, name)
    ensures Recorded(events, aside, n + 1, RunsAfter(runs, run))
  {
    forall x ensures x in run <==> Says(events, aside, n, x) { }
    hide Counts, Named, Says, RunsAfter, Recorded;
    RecordedStep(events, aside, n, runs, run);
    hide PendingAfter, Open;
    forall name ensures name in PendingAfter(pending, run) <==> Open(events, aside, n + 1, name) {
      OpenStep(events, aside, n, name);
      PendingAt(pending, run, name);
    }
  }

  lemma PendingAt(pending: set<string>, run: set<Run>, name: string)
    requires |run| <= 1
    ensures name in PendingAfter(pending, run) <==>
      Run(name, Started) in run || (name in pending && Run(name, Terminal) !in run)
  {
    OneAtMost(run, Run(name, Started), Run(name, Terminal));
  }

  lemma RunsAfterAt(runs: map<string, set<Phase>>, run: set<Run>, name: string, p: Phase)
    ensures name in RunsAfter(runs, run) && p in RunsAfter(runs, run)[name] <==>
      (name in runs && p in runs[name]) || Run(name, p) in run
  {
    if Run(name, p) in run { assert Run(name, p).name == name; }
  }

  lemma RunsAfterNotEmpty(runs: map<string, set<Phase>>, run: set<Run>, name: string)
    requires name in RunsAfter(runs, run) && (name in runs ==> runs[name] != {})
    ensures RunsAfter(runs, run)[name] != {}
  {
    if name !in runs {
      var x :| x in run && x.name == name;
      assert x.phase in RunsAfter(runs, run)[name];
    }
  }

  lemma RecordedStep(events: seq<Event>, aside: set<string>, n: nat, runs: map<string, set<Phase>>, run: set<Run>)
    requires n < |events| && Recorded(events, aside, n, runs)
    requires forall x :: x in run <==> Says(events, aside, n, x)
    ensures Recorded(events, aside, n + 1, RunsAfter(runs, run))
  {
    hide Says, RunsAfter;
    var next := RunsAfter(runs, run);
    forall name, p
      ensures (name in next && p in next[name]) <==> exists i | 0 <= i < n + 1 :: Says(events, aside, i, Run(name, p))
    {
      RunsAfterAt(runs, run, name, p);
      assert (name in runs && p in runs[name]) <==> exists i | 0 <= i < n :: Says(events, aside, i, Run(name, p));
    }
    forall name | name in next ensures next[name] != {} { RunsAfterNotEmpty(runs, run, name); }
  }

  lemma OneAtMost(s: set<Run>, a: Run, b: Run)
    requires |s| <= 1 && a != b
    ensures !(a in s && b in s)
  {
    if a in s && b in s {
      assert |{a, b}| <= |s| by { Subset({a, b}, s); }
    }
  }

  lemma {:induction false} Subset(a: set<Run>, b: set<Run>)
    requires a <= b
    ensures |a| <= |b|
    decreases a
  {
    if a != {} {
      var x :| x in a;
      Subset(a - {x}, b - {x});
    }
  }

  lemma OpenStep(events: seq<Event>, aside: set<string>, n: nat, name: string)
    requires n < |events|
    ensures Open(events, aside, n + 1, name) <==>
      || Says(events, aside, n, Run(name, Started))
      || (Open(events, aside, n, name) && !Says(events, aside, n, Run(name, Terminal)))
  {
    hide Says;
    if Says(events, aside, n, Run(name, Started)) {
      assert Unended(events, aside, n, n + 1, name);
    }
    if Open(events, aside, n, name) && !Says(events, aside, n, Run(name, Terminal)) {
      var i :| 0 <= i < n && Says(events, aside, i, Run(name, Started)) && Unended(events, aside, i, n, name);
      assert Unended(events, aside, i, n + 1, name);
    }
    if Open(events, aside, n + 1, name) && !Says(events, aside, n, Run(name, Started)) {
      var i :| 0 <= i < n + 1 && Says(events, aside, i, Run(name, Started)) && Unended(events, aside, i, n + 1, name);
      assert Unended(events, aside, i, n, name);
    }
  }

  lemma FinishedMeansNoneOpen(events: seq<Event>, aside: set<string>)
    ensures AllFinished(events, aside) <==> forall name :: !Open(events, aside, |events|, name)
  {
    hide Says;
    if !AllFinished(events, aside) {
      var i, name :| 0 <= i < |events| && Says(events, aside, i, Run(name, Started))
        && !EndsAfter(events, aside, i, name);
      assert Unended(events, aside, i, |events|, name);
      assert Open(events, aside, |events|, name);
    }
    if name :| Open(events, aside, |events|, name) {
      var i :| 0 <= i < |events| && Says(events, aside, i, Run(name, Started))
        && Unended(events, aside, i, |events|, name);
      assert !EndsAfter(events, aside, i, name);
    }
  }

  // ----- the journal prefix -----

  const MAX_EVENTS := 16 * 1024 * 1024
  const MAX_AGE := 2 * 3600

  /** The events of the lines; None where a line does not decode or an identity repeats. */
  function Events(lines: seq<string>, decode: string -> Option<Event>, seen: set<string>): Option<seq<Event>>
    decreases |lines|
  {
    if lines == [] then Some([])
    else match decode(lines[0])
      case None => None
      case Some(e) =>
        if e.id == "" || e.id in seen then None
        else match Events(lines[1..], decode, seen + {e.id})
          case None => None
          case Some(more) => Some([e] + more)
  }

  /** _journal */
  function Journal(raw: string, decode: string -> Option<Event>): Option<seq<Event>> {
    if |raw| > MAX_EVENTS || !Guard.Terminated(raw) then None else Events(Guard.SplitLines(raw), decode, {})
  }

  method ReadJournal(raw: string, decode: string -> Option<Event>) returns (r: Option<seq<Event>>)
    ensures r == Journal(raw, decode)
  {
    if |raw| > MAX_EVENTS || !Guard.Terminated(raw) { return None; }
    var lines := Guard.SplitLines(raw);
    hide Guard.SplitLines;
    var result: seq<Event>, ids: set<string>, n := [], {}, 0;
    PrependedTwice([], [], Events(lines, decode, {}));
    assert lines[0..] == lines;
    while n < |lines|
      invariant 0 <= n <= |lines|
      invariant Events(lines, decode, {}) == Prepended(result, Events(lines[n..], decode, ids))
    {
      var e := decode(lines[n]);
      assert lines[n..][1..] == lines[n + 1..];
      if e.None? || e.value.id == "" || e.value.id in ids { return None; }
      PrependedTwice(result, [e.value], Events(lines[n + 1..], decode, ids + {e.value.id}));
      ids := ids + {e.value.id};
      result := result + [e.value];
      n := n + 1;
    }
    assert result + [] == result;
    return Some(result);
  }

  function Prepended(front: seq<Event>, r: Option<seq<Event>>): Option<seq<Event>> {
    match r case None => None case Some(more) => Some(front + more)
  }

  lemma PrependedTwice(a: seq<Event>, b: seq<Event>, r: Option<seq<Event>>)
    ensures Prepended(a, Prepended(b, r)) == Prepended(a + b, r)
    ensures Prepended([], r) == r
  {
    if r.Some? {
      assert a + (b + r.value) == a + b + r.value;
      assert [] + r.value == r.value;
    }
  }

  // ----- the bundle -----

  /** One role's enrollment run; `receiptsOk` says that its three files are the referenced ones. */
  datatype Route = Route(run: string, startedEvent: string, terminalEvent: string, receiptsOk: bool,
    start: int, observed: int, end: int, challenge: string)

  /** The file pair kept for an older run; `bound` says that identity, source and outcome are in order. */
  datatype FilePair = FilePair(bound: bool, startedAt: int, finishedAt: int)

  datatype Bundle = Bundle(byteCount: int, digest: string, routes: map<Role, Route>,
                           historical: map<string, FilePair>, now: int)

  predicate Binds(e: Option<Event>, role: Role, run: Run) {
    && e.Some? && e.value.invocation == Some(role) && e.value.phase == Known(run.phase)
    && e.value.runField == Some(run.name) && e.value.enrolls && Receipt(run, true) in e.value.refs
  }

  predicate RouteOk(events: seq<Event>, role: Role, t: Route, now: int) {
    && Guard.IsRunId(t.run) && t.receiptsOk
    && Binds(ById(events, t.startedEvent), role, Run(t.run, Started))
    && Binds(ById(events, t.terminalEvent), role, Run(t.run, Terminal))
    && t.start <= t.observed <= t.end <= now && now - t.start <= MAX_AGE
  }

  predicate RoutesOk(events: seq<Event>, b: Bundle) {
    b.routes.Keys == {Scheduled, Watchdog, Interactive} && EachOk(events, b) && Apart(b.routes)
  }

  predicate EachOk(events: seq<Event>, b: Bundle) {
    forall role | role in b.routes :: RouteOk(events, role, b.routes[role], b.now)
  }

  /** No two roles share a run or a challenge. */
  predicate Apart(routes: map<Role, Route>) {
    forall x, y | x in routes && y in routes && x != y ::
      routes[x].run != routes[y].run && routes[x].challenge != routes[y].challenge
  }

  function RouteRuns(b: Bundle): set<string> { set role | role in b.routes :: b.routes[role].run }

  predicate PairOk(p: FilePair, now: int) { p.bound && p.startedAt <= p.finishedAt <= now }

  ghost predicate Spoken(events: seq<Event>, aside: set<string>, name: string, p: Phase) {
    exists i | 0 <= i < |events| :: Says(events, aside, i, Run(name, p))
  }

  function AsideOf(events: seq<Event>): set<string> {
    set i | 0 <= i < |events| && events[i].correction.Correction? && events[i].correction.target.Some? ::
      events[i].correction.target.value
  }

  /** Every run the prefix speaks of, other than the three routes' own, has its file pair and both
      phases, and no other run has a pair. */
  ghost predicate HistoryCovered(events: seq<Event>, aside: set<string>, b: Bundle) {
    && (forall name :: name in b.historical <==>
      name !in RouteRuns(b) && (Spoken(events, aside, name, Started) || Spoken(events, aside, name, Terminal)))
    && (forall name | name in b.historical :: Ended(events, aside, b, name))
  }

  ghost predicate Ended(events: seq<Event>, aside: set<string>, b: Bundle, name: string)
    requires name in b.historical
  {
    Spoken(events, aside, name, Started) && Spoken(events, aside, name, Terminal) && PairOk(b.historical[name], b.now)
  }

  ghost predicate Consistent(events: seq<Event>, b: Bundle) {
    var aside := AsideOf(events);
    && CorrectionsOk(events, |events|) && AllOk(events, aside, |events|) && AllFinished(events, aside)
    && RoutesOk(events, b) && HistoryCovered(events, aside, b)
  }

  /** What the bundle demands of the anchored prefix. */
  ghost predicate PrefixOk(prefix: string, b: Bundle, decode: string -> Option<Event>, hash: string -> string) {
    && hash(prefix) == b.digest
    && Journal(prefix, decode).Some? && Consistent(Journal(prefix, decode).value, b)
  }

  ghost predicate Admitted(journal: string, b: Bundle, decode: string -> Option<Event>, hash: string -> string) {
    && 0 < b.byteCount <= MAX_EVENTS && b.byteCount <= |journal|
    && PrefixOk(journal[..b.byteCount], b, decode, hash)
  }

  /** The part of verify_bundle that depends on the journal. */
  method VerifyBundle(journal: string, b: Bundle, decode: string -> Option<Event>, hash: string -> string)
      returns (ok: bool)
    ensures ok <==> Admitted(journal, b, decode, hash)
  {
    hide Journal, CorrectionsOk, AllOk, AllFinished, HistoryCovered, RoutesOk, Recorded, AsideOf;
    if !(0 < b.byteCount <= MAX_EVENTS) || b.byteCount > |journal| { return false; }
    if hash(journal[..b.byteCount]) != b.digest { return false; }
    var events := ReadJournal(journal[..b.byteCount], decode);
    if events.None? { return false; }
    var aside := SetAside(events.value);
    if aside.None? { return false; }
    AsideIs(events.value, aside.value);
    var runs := Account(events.value, aside.value);
    if runs.None? { return false; }
    if !RoutesOk(events.value, b) { return false; }
    ok := CheckHistory(events.value, aside.value, runs.value, b);
  }

  lemma AsideIs(events: seq<Event>, aside: set<string>)
    requires forall id :: id in aside <==> exists i | 0 <= i < |events| :: Corrects(events, i, id)
    ensures aside == AsideOf(events)
  {
    forall id ensures id in aside <==> id in AsideOf(events) {
      if id in AsideOf(events) {
        var i :| 0 <= i < |events| && events[i].correction.Correction? && events[i].correction.target == Some(id);
        assert Corrects(events, i, id);
      }
    }
  }

  /** The receipt map must name exactly the older runs, each with both phases. */
  method CheckHistory(events: seq<Event>, aside: set<string>, runs: map<string, set<Phase>>, b: Bundle)
      returns (ok: bool)
    requires Recorded(events, aside, |events|, runs)
    ensures ok <==> HistoryCovered(events, aside, b)
  {
    hide Recorded, Spoken, RouteRuns, PairOk, Says;
    forall name
      ensures name in runs <==> Spoken(events, aside, name, Started) || Spoken(events, aside, name, Terminal)
    {
      SpokenIsRecorded(events, aside, runs, name);
    }
    hide Ended;
    if b.historical.Keys != runs.Keys - RouteRuns(b) { return false; }
    ok := CheckPairs(events, aside, runs, b);
  }

  /** The loop over the older runs. */
  method CheckPairs(ghost events: seq<Event>, ghost aside: set<string>, runs: map<string, set<Phase>>, b: Bundle)
      returns (ok: bool)
    requires Recorded(events, aside, |events|, runs) && b.historical.Keys <= runs.Keys
    ensures ok <==> forall name | name in b.historical :: Ended(events, aside, b, name)
  {
    hide Recorded, Spoken, PairOk, Says;
    var left := b.historical.Keys;
    while left != {}
      invariant left <= b.historical.Keys
      invariant forall name | name in b.historical && name !in left :: Ended(events, aside, b, name)
      decreases |left|
    {
      var name :| name in left;
      SpokenIsRecorded(events, aside, runs, name);
      if !(Started in runs[name] && Terminal in runs[name] && PairOk(b.historical[name], b.now)) { return false; }
      left := left - {name};
    }
    return true;
  }

  lemma SpokenIsRecorded(events: seq<Event>, aside: set<string>, runs: map<string, set<Phase>>, name: string)
    requires Recorded(events, aside, |events|, runs)
    ensures name in runs && Started in runs[name] <==> Spoken(events, aside, name, Started)
    ensures name in runs && Terminal in runs[name] <==> Spoken(events, aside, name, Terminal)
    ensures name in runs <==> Spoken(events, aside, name, Started) || Spoken(events, aside, name, Terminal)
  {
    hide Says;
    if name in runs {
      var p :| p in runs[name];
      assert p == Started || p == Terminal;
    }
  }

  // ----- what an accepted enrollment means -----

  /** An accepted enrollment: every run the anchored prefix speaks of was started and ended there,
      every start is followed by an end, and the run is a route's own or has its file pair. */
  lemma AdmittedRunsEnded(journal: string, b: Bundle, decode: string -> Option<Event>, hash: string -> string, i: nat,
                          run: Run)
    requires Admitted(journal, b, decode, hash)
    requires var events := Journal(journal[..b.byteCount], decode).value;
      i < |events| && Says(events, AsideOf(events), i, run)
    ensures var events := Journal(journal[..b.byteCount], decode).value;
      && (run.phase == Started ==> EndsAfter(events, AsideOf(events), i, run.name))
      && Spoken(events, AsideOf(events), run.name, Terminal)
      && (run.name in RouteRuns(b) ||
          (&& run.name in b.historical && Spoken(events, AsideOf(events), run.name, Started)
           && PairOk(b.historical[run.name], b.now)))
  {
    hide Journal, AsideOf, CorrectionsOk, AllOk, RoutesOk, Says, PairOk, RouteRuns;
    var events := Journal(journal[..b.byteCount], decode).value;
    assert Spoken(events, AsideOf(events), run.name, run.phase);
    if run.phase == Started {
      assert EndsAfter(events, AsideOf(events), i, run.name);
    }
  }

  /** Once the anchor lies inside the journal, appending changes no verdict. */
  lemma AnchorDecides(journal: string, more: string, b: Bundle, decode: string -> Option<Event>, hash: string -> string)
    requires b.byteCount <= |journal|
    ensures Admitted(journal + more, b, decode, hash) <==> Admitted(journal, b, decode, hash)
  {
    if 0 < b.byteCount {
      assert (journal + more)[..b.byteCount] == journal[..b.byteCount];
    }
  }

  /** Appending never takes an accepted verdict back. */
  lemma AppendingKeepsVerdict(journal: string, more: string, b: Bundle, decode: string -> Option<Event>,
                              hash: string -> string)
    ensures Admitted(journal, b, decode, hash) ==> Admitted(journal + more, b, decode, hash)
  {
    hide PrefixOk;
    if b.byteCount <= |journal| {
      AnchorDecides(journal, more, b, decode, hash);
    }
  }

  /** Some text of exactly the missing length makes the journal reach its anchor and hold there. */
  ghost predicate Completable(journal: string, b: Bundle, decode: string -> Option<Event>, hash: string -> string) {
    && 0 < b.byteCount <= MAX_EVENTS
    && exists rest :: |journal| + |rest| == b.byteCount && PrefixOk(journal + rest, b, decode, hash)
  }

  lemma LongerCompletes(journal: string, more: string, b: Bundle, decode: string -> Option<Event>,
                        hash: string -> string)
    requires b.byteCount > |journal| && Admitted(journal + more, b, decode, hash)
    ensures Completable(journal, b, decode, hash)
  {
    hide PrefixOk;
    var rest := more[..b.byteCount - |journal|];
    assert (journal + more)[..b.byteCount] == journal + rest;
  }

  /** Exactly when no appending changes the verdict: the journal has reached its anchor, or
      nothing of the missing length completes it. */
  lemma VerdictIsFinalIff(journal: string, b: Bundle, decode: string -> Option<Event>, hash: string -> string)
    ensures (forall more :: Admitted(journal + more, b, decode, hash) <==> Admitted(journal, b, decode, hash))
      <==> b.byteCount <= |journal| || !Completable(journal, b, decode, hash)
  {
    hide PrefixOk;
    if b.byteCount <= |journal| {
      forall more ensures Admitted(journal + more, b, decode, hash) <==> Admitted(journal, b, decode, hash) {
        AnchorDecides(journal, more, b, decode, hash);
      }
    } else {
      ShortIsRefused(journal, b, decode, hash);
      if Completable(journal, b, decode, hash) {
        var rest :| |journal| + |rest| == b.byteCount && PrefixOk(journal + rest, b, decode, hash);
        assert (journal + rest)[..b.byteCount] == journal + rest;
        assert Admitted(journal + rest, b, decode, hash);
      } else {
        forall more ensures !Admitted(journal + more, b, decode, hash) {
          if Admitted(journal + more, b, decode, hash) {
            LongerCompletes(journal, more, b, decode, hash);
          }
        }
      }
    }
  }

  /** The identity a line carries, if it decodes. */
  function IdOf(decode: string -> Option<Event>, line: string): Option<string> {
    match decode(line) case None => None case Some(e) => Some(e.id)
  }

  /** A line that is refused whatever follows it: it does not decode, its identity is empty, or an
      earlier line has the same one. */
  predicate Broken(lines: seq<string>, decode: string -> Option<Event>, i: nat)
    requires i < |lines|
  {
    var id := IdOf(decode, lines[i]);
    id == None || id == Some("") || exists j | 0 <= j < i :: IdOf(decode, lines[j]) == id
  }

  predicate Repeats(lines: seq<string>, decode: string -> Option<Event>, seen: set<string>, i: nat)
    requires i < |lines|
  {
    IdOf(decode, lines[i]).Some? && IdOf(decode, lines[i]).value in seen
  }

  lemma {:induction false} RefusedAt(lines: seq<string>, decode: string -> Option<Event>, seen: set<string>, i: nat)
    requires i < |lines| && (Broken(lines, decode, i) || Repeats(lines, decode, seen, i))
    ensures Events(lines, decode, seen) == None
  {
    if i > 0 && Events(lines, decode, seen).Some? {
      var id := IdOf(decode, lines[0]).value;
      if Broken(lines, decode, i) && IdOf(decode, lines[i]) != None && IdOf(decode, lines[i]) != Some("") {
        var j :| 0 <= j < i && IdOf(decode, lines[j]) == IdOf(decode, lines[i]);
        assert j > 0 ==> lines[1..][j - 1] == lines[j];
      }
      assert lines[1..][i - 1] == lines[i];
      RefusedAt(lines[1..], decode, seen + {id}, i - 1);
    }
  }

  lemma {:induction false} RefusedSomewhere(lines: seq<string>, decode: string -> Option<Event>, seen: set<string>)
      returns (i: nat)
    requires Events(lines, decode, seen) == None
    ensures i < |lines| && (Broken(lines, decode, i) || Repeats(lines, decode, seen, i))
  {
    var id := IdOf(decode, lines[0]);
    if id == None || id == Some("") || id.value in seen { return 0; }
    var k := RefusedSomewhere(lines[1..], decode, seen + {id.value});
    assert lines[1..][k] == lines[k + 1];
    if Broken(lines[1..], decode, k) && IdOf(decode, lines[k + 1]) != None && IdOf(decode, lines[k + 1]) != Some("") {
      var j :| 0 <= j < k && IdOf(decode, lines[1..][j]) == IdOf(decode, lines[k + 1]);
      assert lines[1..][j] == lines[j + 1];
    }
    return k + 1;
  }

  predicate SomeBroken(lines: seq<string>, decode: string -> Option<Event>) {
    exists i | 0 <= i < |lines| :: Broken(lines, decode, i)
  }

  /** The text can be continued to one that is read. */
  ghost predicate ReadableAgain(text: string, decode: string -> Option<Event>) {
    exists rest :: Journal(text + rest, decode).Some?
  }

  /** A journal that ends with a whole line can be continued to one that is read exactly when none
      of its lines is broken already: a condition on its own lines. */
  lemma ReadableAgainIff(text: string, decode: string -> Option<Event>)
    requires Guard.Terminated(text) && |text| <= MAX_EVENTS
    ensures ReadableAgain(text, decode) <==> !SomeBroken(Guard.SplitLines(text), decode)
  {
    hide Guard.SplitLines, Events, Broken;
    var lines := Guard.SplitLines(text);
    if SomeBroken(lines, decode) {
      var i :| 0 <= i < |lines| && Broken(lines, decode, i);
      if ReadableAgain(text, decode) {
        var rest :| Journal(text + rest, decode).Some?;
        BrokenForGood(text, rest, decode, i);
      }
    } else {
      if Events(lines, decode, {}) == None {
        var i := RefusedSomewhere(lines, decode, {});
      }
      assert text + "" == text;
      assert Journal(text + "", decode).Some?;
    }
  }

  lemma BrokenForGood(text: string, rest: string, decode: string -> Option<Event>, i: nat)
    requires Guard.Terminated(text) && i < |Guard.SplitLines(text)| && Broken(Guard.SplitLines(text), decode, i)
    ensures Journal(text + rest, decode) == None
  {
    hide Guard.SplitLines, Events;
    Facts.SplitConcat(text, rest);
    var lines, all := Guard.SplitLines(text), Guard.SplitLines(text + rest);
    assert forall j | 0 <= j < |lines| :: all[j] == lines[j];
    RefusedAt(all, decode, {}, i);
  }

  /** A broken line in front of the anchor makes the refusal final: no continuation is accepted. */
  lemma BrokenLineIsFinal(journal: string, n: nat, i: nat, b: Bundle, decode: string -> Option<Event>,
                          hash: string -> string)
    requires n <= |journal| && n <= b.byteCount && Guard.Terminated(journal[..n])
    requires i < |Guard.SplitLines(journal[..n])| && Broken(Guard.SplitLines(journal[..n]), decode, i)
    ensures forall more :: !Admitted(journal + more, b, decode, hash)
    ensures b.byteCount > |journal| ==> !Completable(journal, b, decode, hash)
  {
    hide Guard.SplitLines, Guard.Terminated, Broken, Journal, Consistent;
    var text := journal[..n];
    forall more ensures !Admitted(journal + more, b, decode, hash) {
      if Admitted(journal + more, b, decode, hash) {
        var prefix := (journal + more)[..b.byteCount];
        assert prefix == text + prefix[n..];
        BrokenForGood(text, prefix[n..], decode, i);
      }
    }
    if b.byteCount > |journal| && Completable(journal, b, decode, hash) {
      var rest :| |journal| + |rest| == b.byteCount && PrefixOk(journal + rest, b, decode, hash);
      assert journal + rest == text + (journal[n..] + rest);
      BrokenForGood(text, journal[n..] + rest, decode, i);
    }
  }

  lemma ShortIsRefused(journal: string, b: Bundle, decode: string -> Option<Event>, hash: string -> string)
    requires b.byteCount > |journal|
    ensures !Admitted(journal, b, decode, hash)
  {
  }

  /** Such refusals exist for every accepted journal: each of its prefixes shorter than the anchor
      is refused and grows into the accepted journal. */
  lemma RefusedMayBecomeAccepted(journal: string, n: nat, b: Bundle, decode: string -> Option<Event>,
                                 hash: string -> string)
    requires Admitted(journal, b, decode, hash) && n < b.byteCount
    ensures !Admitted(journal[..n], b, decode, hash) && journal[..n] + journal[n..] == journal
  {
  }

  /** Two journals accepted under one bundle agree on the anchored prefix, or exhibit a collision. */
  lemma AnchorPinsPrefix(x: string, y: string, b: Bundle, decode: string -> Option<Event>, hash: string -> string)
    requires Admitted(x, b, decode, hash) && Admitted(y, b, decode, hash)
    ensures x[..b.byteCount] == y[..b.byteCount] || exists s, t :: s != t && hash(s) == hash(t)
  {
    hide Journal, Consistent;
    assert hash(x[..b.byteCount]) == hash(y[..b.byteCount]);
  }
}
