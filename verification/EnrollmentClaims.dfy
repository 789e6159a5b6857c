/** What the run accounting reads out of an event's identity, and what an admitted bundle says, field
    by field. */
module EnrollmentClaims {
  import opened Prelude
  import opened Enrollment
  import Guard = GuardJournal

  // ----- older identities -----

  function WordOf(phase: Phase, long: bool): string {
    match phase
    case Started => if long then "started" else "start"
    case Terminal => if long then "terminal" else "end"
  }

  function LegacyText(role: Role, phase: Phase, long: bool, suffix: string): string {
    "fr06-" + (RoleName(role) + "-" + (WordOf(phase, long) + "-" + suffix))
  }

  predicate SuffixText(s: string) {
    && s != ""
    && forall k | 0 <= k < |s| ::
      'a' <= s[k] <= 'z' || 'A' <= s[k] <= 'Z' || '0' <= s[k] <= '9' || s[k] == '_' || s[k] == '-'
  }

  lemma SuffixIs(s: string)
    ensures Suffix(s) <==> SuffixText(s)
  {
  }

  lemma RoleReads(role: Role, rest: string)
    ensures RoleIn(RoleName(role) + "-" + rest) == Some((role, rest))
  {
    var text := RoleName(role) + "-" + rest;
    match role
    case Scheduled =>
      assert text[..10] == "scheduled-" && text[10..] == rest;
    case Watchdog =>
      assert text[0] == 'w' && text[..9] == "watchdog-" && text[9..] == rest;
    case Interactive =>
      assert text[0] == 'i' && text[..12] == "interactive-" && text[12..] == rest;
  }

  lemma WordReads(phase: Phase, long: bool, suffix: string)
    ensures WordIn(WordOf(phase, long) + "-" + suffix) == Some((phase, suffix))
  {
    var text := WordOf(phase, long) + "-" + suffix;
    if phase == Started {
      if long {
        assert text[5] == 'e' && text[..8] == "started-" && text[8..] == suffix;
      } else {
        assert text[..6] == "start-" && text[6..] == suffix;
      }
    } else {
      if long {
        assert text[0] == 't' && text[..9] == "terminal-" && text[9..] == suffix;
      } else {
        assert text[0] == 'e' && text[..4] == "end-" && text[4..] == suffix;
      }
    }
  }

  /** Every older identity is read as its role, its phase and the name of its run. */
  lemma LegacyReads(role: Role, phase: Phase, long: bool, suffix: string)
    requires SuffixText(suffix)
    ensures LegacyOf(LegacyText(role, phase, long, suffix)) ==
      Some(Legacy(role, Run(RoleName(role) + "-" + suffix, phase)))
  {
    SuffixIs(suffix);
    hide RoleIn, WordIn, RoleName, WordOf, Suffix, SuffixText;
    var rest := WordOf(phase, long) + "-" + suffix;
    var id := LegacyText(role, phase, long, suffix);
    assert id == "fr06-" + (RoleName(role) + "-" + rest);
    assert id[..5] == "fr06-" && id[5..] == RoleName(role) + "-" + rest;
    RoleReads(role, rest);
    WordReads(phase, long, suffix);
  }

  lemma RoleWritten(text: string)
    requires RoleIn(text).Some?
    ensures var (role, rest) := RoleIn(text).value; text == RoleName(role) + "-" + rest
  {
    if "scheduled-" <= text {
      assert text == "scheduled" + "-" + text[10..];
    } else if "watchdog-" <= text {
      assert text == "watchdog" + "-" + text[9..];
    } else {
      assert text == "interactive" + "-" + text[12..];
    }
  }

  lemma WordWritten(text: string) returns (long: bool)
    requires WordIn(text).Some?
    ensures var (phase, suffix) := WordIn(text).value; text == WordOf(phase, long) + "-" + suffix
  {
    if "start-" <= text {
      assert text == "start" + "-" + text[6..];
      long := false;
    } else if "started-" <= text {
      assert text == "started" + "-" + text[8..];
      long := true;
    } else if "end-" <= text {
      assert text == "end" + "-" + text[4..];
      long := false;
    } else {
      assert text == "terminal" + "-" + text[9..];
      long := true;
    }
  }

  /** Nothing else is an older identity. */
  lemma LegacyWritten(id: string) returns (long: bool, suffix: string)
    requires LegacyOf(id).Some?
    ensures var l := LegacyOf(id).value;
      && id == LegacyText(l.role, l.run.phase, long, suffix) && SuffixText(suffix)
      && l.run.name == RoleName(l.role) + "-" + suffix
  {
    hide RoleIn, WordIn, RoleName, WordOf, Suffix, SuffixText;
    assert id == "fr06-" + id[5..];
    RoleWritten(id[5..]);
    var (role, rest) := RoleIn(id[5..]).value;
    long := WordWritten(rest);
    suffix := WordIn(rest).value.1;
    SuffixIs(suffix);
  }

  // ----- what an event counts as -----

  /** A receipt of the run in this phase is among the evidence, and its name is in the identity. */
  ghost predicate Evidences(e: Event, run: Run) {
    (Receipt(run, true) in e.refs || Receipt(run, false) in e.refs) && Guard.IsRunId(run.name) && Occurs(run.name, e.id)
  }

  ghost predicate Occurs(part: string, text: string) { exists before, after :: text == before + part + after }

  lemma OccursIs(part: string, text: string)
    ensures Contains(text, part) <==> Occurs(part, text)
  {
    if Contains(text, part) {
      var i :| 0 <= i <= |text| && part <= text[i..];
      assert text == text[..i] + part + text[i + |part|..];
    }
    if Occurs(part, text) {
      var before, after :| text == before + part + after;
      assert text[|before|..] == part + after;
      assert part <= text[|before|..];
    }
  }

  lemma NamedIs(e: Event, run: Run)
    requires LegacyOf(e.id) == None
    ensures run in Named(e) <==> Evidences(e, run) && (PhaseOf(e).Some? ==> run.phase == PhaseOf(e).value)
  {
    OccursIs(run.name, e.id);
    NamedAt(e);
    hide LegacyOf, PhaseOf, Contains, Occurs, Guard.IsRunId, Named;
    if Evidences(e, run) {
      var r := if Receipt(run, true) in e.refs then Receipt(run, true) else Receipt(run, false);
      var k :| 0 <= k < |e.refs| && e.refs[k] == r;
      assert Matches(e, e.refs[k]);
    }
    forall k | 0 <= k < |e.refs| && Matches(e, e.refs[k]) && e.refs[k].run == run ensures Evidences(e, run) {
      assert e.refs[k] == Receipt(run, e.refs[k].canonical);
      assert e.refs[k] in e.refs;
    }
  }

  lemma EndingReads(front: string)
    ensures EndingOf(front + "-terminal") == TerminalEnding && EndingOf(front + "-end") == EndEnding
    ensures EndingOf(front + "-started") == StartEnding && EndingOf(front + "-start") == StartEnding
  {
    Ends(front, "-terminal");
    Ends(front, "-end");
    Ends(front, "-started");
    Ends(front, "-start");
    LastIs(front + "-end", 'd', "-terminal");
    LastIs(front + "-started", 'd', "-terminal");
    LastIs(front + "-start", 't', "-terminal");
    LastIs(front + "-start", 't', "-end");
    var text := front + "-started";
    assert text[|text| - 4..][0] == text[|text| - 4] == 'r';
  }

  lemma Ends(front: string, end: string)
    ensures EndsWith(front + end, end)
  {
    assert (front + end)[|front|..] == end;
  }

  lemma LastIs(text: string, last: char, end: string)
    requires text != "" && text[|text| - 1] == last && end != "" && end[|end| - 1] != last
    ensures !EndsWith(text, end)
  {
    if |end| <= |text| {
      assert text[|text| - |end|..][|end| - 1] == text[|text| - 1];
    }
  }

  /** An event without a phase field whose identity ends with "-end" or "-terminal" counts as the end
      of exactly the runs whose terminal receipts it names, and "-start" or "-started" as a start. */
  lemma EndingDecides(e: Event, front: string, run: Run)
    requires LegacyOf(e.id) == None && !e.phase.Known?
    ensures e.id == front + "-end" || e.id == front + "-terminal" ==>
      (run in Named(e) <==> Evidences(e, run) && run.phase == Terminal)
    ensures e.id == front + "-start" || e.id == front + "-started" ==>
      (run in Named(e) <==> Evidences(e, run) && run.phase == Started)
  {
    EndingReads(front);
    NamedIs(e, run);
    hide LegacyOf, EndingOf, Evidences, Named;
  }

  /** A phase field decides before the identity does. */
  lemma FieldDecides(e: Event, run: Run)
    requires LegacyOf(e.id) == None && e.phase.Known?
    ensures run in Named(e) <==> Evidences(e, run) && run.phase == e.phase.phase
  {
    NamedIs(e, run);
    hide LegacyOf, EndingOf, Evidences, Named;
  }

  // ----- what an admitted bundle says -----

  /** The retained run of a role: a proper name, its files in order, its two events in the journal and
      its times in order and at most two hours old. */
  predicate RouteInOrder(events: seq<Event>, role: Role, t: Route, now: int) {
    && Guard.IsRunId(t.run) && t.receiptsOk
    && HasEvent(events, role, t.run, Started, t.startedEvent)
    && HasEvent(events, role, t.run, Terminal, t.terminalEvent)
    && t.start <= t.observed && t.observed <= t.end && t.end <= now && now <= t.start + 7200
  }

  /** The first event with this identity is this role's own, of this run and phase, an enrollment, and
      cites the receipt. */
  predicate HasEvent(events: seq<Event>, role: Role, run: string, phase: Phase, id: string) {
    exists i | 0 <= i < |events| ::
      && events[i].id == id && (forall j | 0 <= j < i :: events[j].id != id)
      && events[i].invocation == Some(role) && events[i].phase == Known(phase) && events[i].runField == Some(run)
      && events[i].enrolls && Receipt(Run(run, phase), true) in events[i].refs
  }

  predicate FirstOf(events: seq<Event>, id: string, i: int) {
    0 <= i < |events| && events[i].id == id && forall j | 0 <= j < i :: events[j].id != id
  }

  lemma {:induction false} ByIdIs(events: seq<Event>, id: string)
    ensures ById(events, id) == None ==> forall i | 0 <= i < |events| :: events[i].id != id
    ensures ById(events, id).Some? ==>
      exists i | 0 <= i < |events| :: FirstOf(events, id, i) && events[i] == ById(events, id).value
  {
    if events != [] {
      if events[0].id == id {
        assert FirstOf(events, id, 0);
      } else {
        ByIdIs(events[1..], id);
        if ById(events, id).Some? {
          var k :| 0 <= k < |events[1..]| && FirstOf(events[1..], id, k) && events[1..][k] == ById(events, id).value;
          forall j | 0 <= j < k + 1 ensures events[j].id != id {
            if j > 0 { assert events[1..][j - 1] == events[j]; }
          }
          assert FirstOf(events, id, k + 1);
        } else {
          forall i | 0 <= i < |events| ensures events[i].id != id {
            if i > 0 { assert events[1..][i - 1] == events[i]; }
          }
        }
      }
    }
  }

  lemma HasEventIs(events: seq<Event>, role: Role, run: string, phase: Phase, id: string)
    ensures Binds(ById(events, id), role, Run(run, phase)) <==> HasEvent(events, role, run, phase, id)
  {
    ByIdIs(events, id);
    hide ById;
    if HasEvent(events, role, run, phase, id) {
      var i :| 0 <= i < |events| && events[i].id == id && (forall j | 0 <= j < i :: events[j].id != id)
        && events[i].invocation == Some(role) && events[i].phase == Known(phase) && events[i].runField == Some(run)
        && events[i].enrolls && Receipt(Run(run, phase), true) in events[i].refs;
      var k :| 0 <= k < |events| && FirstOf(events, id, k) && events[k] == ById(events, id).value;
      assert i == k;
    }
  }

  lemma RouteIs(events: seq<Event>, role: Role, t: Route, now: int)
    ensures RouteOk(events, role, t, now) <==> RouteInOrder(events, role, t, now)
  {
    HasEventIs(events, role, t.run, Started, t.startedEvent);
    HasEventIs(events, role, t.run, Terminal, t.terminalEvent);
    hide Binds, ById, HasEvent, Guard.IsRunId;
  }

  // ----- the whole verdict -----

  /** An older identity of this role and run, as text. */
  ghost predicate Older(id: string, role: Role, run: Run) {
    exists long, suffix :: OlderWith(id, role, run, long, suffix)
  }

  predicate OlderWith(id: string, role: Role, run: Run, long: bool, suffix: string) {
    SuffixText(suffix) && id == LegacyText(role, run.phase, long, suffix) && run.name == RoleName(role) + "-" + suffix
  }

  lemma OlderIff(id: string, role: Role, run: Run)
    ensures Older(id, role, run) <==> LegacyOf(id) == Some(Legacy(role, run))
  {
    hide LegacyOf, SuffixText, RoleName, LegacyText;
    if Older(id, role, run) {
      var long, suffix :| OlderWith(id, role, run, long, suffix);
      LegacyReads(role, run.phase, long, suffix);
    }
    if LegacyOf(id) == Some(Legacy(role, run)) {
      var long, suffix := LegacyWritten(id);
      assert OlderWith(id, role, run, long, suffix);
    }
  }

  ghost predicate EndsIn(id: string, end: string) { exists front :: id == front + end }

  lemma EndsInIs(id: string, end: string)
    ensures EndsIn(id, end) <==> EndsWith(id, end)
  {
    if EndsWith(id, end) { assert id == id[..|id| - |end|] + end; }
    if EndsIn(id, end) {
      var front :| id == front + end;
      Ends(front, end);
    }
  }

  /** The phase that the end of an identity insists on. */
  ghost predicate EndInsists(id: string, phase: Phase) {
    match phase
    case Terminal => EndsIn(id, "-terminal") || EndsIn(id, "-end")
    case Started => EndsIn(id, "-started") || EndsIn(id, "-start")
  }

  lemma EndInsistsIs(id: string, phase: Phase)
    ensures EndInsists(id, phase) <==>
      match EndingOf(id)
      case TerminalEnding => phase == Terminal
      case EndEnding => phase == Terminal
      case StartEnding => phase == Started
      case PlainEnding => false
  {
    EndsInIs(id, "-terminal");
    EndsInIs(id, "-end");
    EndsInIs(id, "-started");
    EndsInIs(id, "-start");
    OneEnding(id);
    hide EndsIn, EndsWith;
  }

  lemma EndLetter(text: string, end: string, k: nat)
    requires k < |end|
    ensures EndsWith(text, end) ==> text[|text| - |end| + k] == end[k]
  {
    if EndsWith(text, end) { assert text[|text| - |end|..][k] == text[|text| - |end| + k]; }
  }

  lemma OneEnding(id: string)
    ensures EndsWith(id, "-terminal") || EndsWith(id, "-end") ==> !EndsWith(id, "-started") && !EndsWith(id, "-start")
  {
    EndLetter(id, "-terminal", 8);
    EndLetter(id, "-end", 2);
    EndLetter(id, "-end", 3);
    EndLetter(id, "-started", 6);
    EndLetter(id, "-started", 7);
    EndLetter(id, "-start", 5);
    hide EndsWith;
  }

  /** The event cites a receipt of the run, whose name is that of its older identity or stands in its
      identity. */
  ghost predicate Cites(e: Event, run: Run, canonical: bool) {
    && Receipt(run, canonical) in e.refs && RunNameText(run.name)
    && (forall role, older | Older(e.id, role, older) :: run.name == older.name)
    && ((exists role, older :: Older(e.id, role, older)) || Occurs(run.name, e.id))
  }

  predicate RunNameText(s: string) { |s| <= 120 && SuffixText(s) }

  /** The phase that an event insists on: that of its older identity, or else of its phase field, or
      else of the end of its identity. */
  ghost predicate Insists(e: Event, phase: Phase) {
    if exists role, run :: Older(e.id, role, run) then
      exists role, run :: Older(e.id, role, run) && run.phase == phase
    else
      if e.phase.Known? then e.phase.phase == phase else EndInsists(e.id, phase)
  }

  ghost predicate Speaks(e: Event, run: Run) {
    (Cites(e, run, true) || Cites(e, run, false)) && forall phase | Insists(e, phase) :: run.phase == phase
  }

  lemma OldIs(e: Event)
    ensures LegacyOf(e.id) == None <==> !exists role, run :: Older(e.id, role, run)
    ensures LegacyOf(e.id).Some? ==> Older(e.id, LegacyOf(e.id).value.role, LegacyOf(e.id).value.run)
    ensures forall role, run | Older(e.id, role, run) :: LegacyOf(e.id) == Some(Legacy(role, run))
  {
    hide Older, LegacyOf;
    forall role, run ensures Older(e.id, role, run) <==> LegacyOf(e.id) == Some(Legacy(role, run)) {
      OlderIff(e.id, role, run);
    }
    if LegacyOf(e.id).Some? {
      var l := LegacyOf(e.id).value;
      assert l == Legacy(l.role, l.run);
    }
  }

  lemma CitesIs(e: Event, run: Run, canonical: bool)
    ensures Cites(e, run, canonical) <==> Receipt(run, canonical) in e.refs && Matches(e, Receipt(run, canonical))
  {
    OldIs(e);
    OccursIs(run.name, e.id);
    hide Older, LegacyOf, Occurs, Contains;
    if LegacyOf(e.id).Some? {
      var l := LegacyOf(e.id).value;
      assert Older(e.id, l.role, l.run);
    }
  }

  lemma InsistsIs(e: Event, phase: Phase)
    ensures Insists(e, phase) <==> PhaseOf(e) == Some(phase)
  {
    OldIs(e);
    EndInsistsIs(e.id, phase);
    hide Older, LegacyOf, EndInsists, EndingOf;
  }

  lemma SpeaksIs(e: Event, run: Run)
    ensures Speaks(e, run) <==> run in Named(e)
  {
    CitesIs(e, run, true);
    CitesIs(e, run, false);
    forall phase { InsistsIs(e, phase); }
    NamedAt(e);
    assert forall r: Ref | Matches(e, r) :: r.Receipt?;
    hide Cites, Insists, Matches, PhaseOf, Named;
    if Speaks(e, run) {
      var r := if Cites(e, run, true) then Receipt(run, true) else Receipt(run, false);
      var k :| 0 <= k < |e.refs| && e.refs[k] == r;
    }
    if run in Named(e) {
      var k :| 0 <= k < |e.refs| && Matches(e, e.refs[k]) && e.refs[k].run == run;
      assert e.refs[k] == Receipt(run, e.refs[k].canonical);
    }
  }

  /** An event that counts is in order: it speaks of one run at most, citing it properly; of one at
      all if it names a phase or ends like one; an older one of its own run, with its role. */
  ghost predicate EventInOrder(e: Event) {
    && '$' !in e.id && !e.placeholderSource
    && (forall run :: !Cites(e, run, false))
    && (forall x, y | Speaks(e, x) && Speaks(e, y) :: x == y)
    && (forall role, run | Older(e.id, role, run) ::
          RunNameText(run.name) && e.invocation == Some(role) && (e.phase == NoPhase || e.phase == Known(run.phase))
          && Speaks(e, run))
    && (e.phase.Known? || EndsIn(e.id, "-started") || EndsIn(e.id, "-start") || EndsIn(e.id, "-terminal") ==>
          exists run :: Speaks(e, run))
  }

  lemma SpeaksAre(e: Event)
    ensures forall run :: Speaks(e, run) <==> run in Named(e)
    ensures forall run, canonical ::
      Cites(e, run, canonical) <==> Receipt(run, canonical) in e.refs && Matches(e, Receipt(run, canonical))
  {
    forall run ensures Speaks(e, run) <==> run in Named(e) { SpeaksIs(e, run); }
    forall run, canonical
      ensures Cites(e, run, canonical) <==> Receipt(run, canonical) in e.refs && Matches(e, Receipt(run, canonical))
    {
      CitesIs(e, run, canonical);
    }
  }

  lemma AtMostOne(s: set<Run>)
    ensures |s| <= 1 <==> forall x, y | x in s && y in s :: x == y
  {
    if x :| x in s {
      assert |s - {x}| == |s| - 1;
      if s - {x} == {} {
        assert forall y | y in s :: y !in s - {x};
      } else {
        var y :| y in s - {x};
      }
    }
  }

  lemma ReadableIs(e: Event)
    ensures Readable(e) <==>
      && (LegacyOf(e.id).Some? ==> LegacyOk(e, LegacyOf(e.id).value) && LegacyOf(e.id).value.run in Named(e))
      && (forall run :: !Cites(e, run, false))
      && forall x, y | x in Named(e) && y in Named(e) :: x == y
  {
    SpeaksAre(e);
    AtMostOne(Named(e));
    assert forall r: Ref | Matches(e, r) :: r.Receipt?;
    hide Cites, Speaks, Matches, Named, LegacyOk, LegacyOf;
    if forall run :: !Cites(e, run, false) {
      forall r | r in e.refs && Matches(e, r) ensures r.canonical {
        assert r == Receipt(r.run, r.canonical);
        assert Cites(e, r.run, r.canonical);
      }
    }
    if forall r | r in e.refs && Matches(e, r) :: r.canonical {
      forall run ensures !Cites(e, run, false) { assert !Receipt(run, false).canonical; }
    }
  }

  lemma RunNameTextIs(s: string)
    ensures Guard.IsRunId(s) <==> RunNameText(s)
  {
  }

  lemma EventIs(e: Event)
    ensures EventOk(e) <==> EventInOrder(e)
  {
    ReadableIs(e);
    SpeaksAre(e);
    OldIs(e);
    EndsInIs(e.id, "-started");
    EndsInIs(e.id, "-start");
    EndsInIs(e.id, "-terminal");
    EndInsistsIs(e.id, Started);
    EndInsistsIs(e.id, Terminal);
    if LegacyOf(e.id).Some? { RunNameTextIs(LegacyOf(e.id).value.run.name); }
    hide Cites, Speaks, Named, LegacyOf, Older, EndsIn, EndsWith, EndingOf, Readable, RunNameText, Guard.IsRunId;
  }

  // Which events count, and what they say.

  ghost predicate SetAsideBy(events: seq<Event>, id: string, k: int) {
    0 <= k < |events| && events[k].correction.Correction? && events[k].correction.target == Some(id)
  }

  ghost predicate Counted(events: seq<Event>, i: int) {
    0 <= i < |events| && events[i].invocation.Some? && !exists k :: SetAsideBy(events, events[i].id, k)
  }

  ghost predicate SaysSo(events: seq<Event>, i: int, run: Run) {
    Counted(events, i) && Speaks(events[i], run)
  }

  lemma CountedIs(events: seq<Event>, i: nat)
    requires i < |events|
    ensures Counted(events, i) <==> Counts(events[i], AsideOf(events))
  {
    var id := events[i].id;
    if k :| SetAsideBy(events, id, k) { assert events[k].correction.target.Some?; }
    if id in AsideOf(events) {
      var k :| 0 <= k < |events| && events[k].correction.Correction? && events[k].correction.target == Some(id);
      assert SetAsideBy(events, id, k);
    }
  }

  lemma SaysIs(events: seq<Event>, i: nat, run: Run)
    requires i < |events|
    ensures SaysSo(events, i, run) <==> Says(events, AsideOf(events), i, run)
  {
    CountedIs(events, i);
    SpeaksIs(events[i], run);
    hide Counted, Counts, AsideOf, Speaks, Named;
  }

  lemma SpokenIs(events: seq<Event>, name: string, phase: Phase)
    ensures Spoken(events, AsideOf(events), name, phase) <==> exists i :: SaysSo(events, i, Run(name, phase))
  {
    forall i | 0 <= i < |events| { SaysIs(events, i, Run(name, phase)); }
    assert forall i, run | SaysSo(events, i, run) :: 0 <= i < |events|;
    hide SaysSo, Says, AsideOf;
  }

  /** A correction is sealed and names the first event of an identity that was never filled in, and
      no two name the same. */
  ghost predicate CorrectionsInOrder(events: seq<Event>) {
    && (forall k | 0 <= k < |events| && events[k].correction.Correction? ::
          events[k].correction.sealed && events[k].correction.target.Some? &&
          exists i :: FirstOf(events, events[k].correction.target.value, i) && '$' in events[i].id
                      && events[i].placeholderSource)
    && forall k, l | 0 <= k < l < |events| && events[k].correction.Correction? && events[l].correction.Correction? ::
        events[k].correction.target != events[l].correction.target
  }

  lemma CorrectionIs(events: seq<Event>, c: Correction)
    requires c.Correction?
    ensures CorrectionOk(events, c) <==>
      c.sealed && c.target.Some? &&
      exists i :: FirstOf(events, c.target.value, i) && '$' in events[i].id && events[i].placeholderSource
  {
    if c.target.Some? {
      var id := c.target.value;
      ByIdIs(events, id);
      hide ById;
      if ById(events, id).Some? {
        var k :| 0 <= k < |events| && FirstOf(events, id, k) && events[k] == ById(events, id).value;
        forall i | FirstOf(events, id, i) ensures i == k { }
      }
    }
  }

  lemma CorrectionsAre(events: seq<Event>)
    ensures CorrectionsOk(events, |events|) <==> CorrectionsInOrder(events)
  {
    forall k | 0 <= k < |events| && events[k].correction.Correction? { CorrectionIs(events, events[k].correction); }
    assert forall k | 0 <= k < |events| && !events[k].correction.Correction? ::
      CorrectionOk(events, events[k].correction);
    hide CorrectionOk, FirstOf;
  }

  /** Every event that counts is in order, and every start of a run is followed by an end of it. */
  ghost predicate RunsInOrder(events: seq<Event>) {
    && (forall i | Counted(events, i) :: EventInOrder(events[i]))
    && forall i, name | SaysSo(events, i, Run(name, Started)) ::
        exists j :: i < j && SaysSo(events, j, Run(name, Terminal))
  }

  lemma RunsAre(events: seq<Event>)
    ensures AllOk(events, AsideOf(events), |events|) && AllFinished(events, AsideOf(events)) <==> RunsInOrder(events)
  {
    forall i | 0 <= i < |events| ensures Counted(events, i) <==> Counts(events[i], AsideOf(events)) {
      CountedIs(events, i);
    }
    forall i | 0 <= i < |events| ensures EventOk(events[i]) <==> EventInOrder(events[i]) { EventIs(events[i]); }
    forall i, run | 0 <= i < |events| ensures SaysSo(events, i, run) <==> Says(events, AsideOf(events), i, run) {
      SaysIs(events, i, run);
    }
    assert forall i | Counted(events, i) :: 0 <= i < |events|;
    assert forall i, run | SaysSo(events, i, run) :: 0 <= i < |events|;
    hide Counted, Counts, EventOk, EventInOrder, SaysSo, Says, AsideOf;
    if RunsInOrder(events) {
      forall i, name | 0 <= i < |events| && Says(events, AsideOf(events), i, Run(name, Started))
        ensures EndsAfter(events, AsideOf(events), i, name)
      {
        var j :| i < j && SaysSo(events, j, Run(name, Terminal));
        assert Says(events, AsideOf(events), j, Run(name, Terminal));
      }
    }
    if AllFinished(events, AsideOf(events)) {
      forall i, name | SaysSo(events, i, Run(name, Started))
        ensures exists j :: i < j && SaysSo(events, j, Run(name, Terminal))
      {
        assert EndsAfter(events, AsideOf(events), i, name);
        var j :| i < j < |events| && Says(events, AsideOf(events), j, Run(name, Terminal));
        assert SaysSo(events, j, Run(name, Terminal));
      }
    }
  }

  /** One recent run for each of the three roles, with a name and a challenge of its own. */
  ghost predicate RoutesInOrder(events: seq<Event>, b: Bundle) {
    && b.routes.Keys == {Scheduled, Watchdog, Interactive}
    && RouteInOrder(events, Scheduled, b.routes[Scheduled], b.now)
    && RouteInOrder(events, Watchdog, b.routes[Watchdog], b.now)
    && RouteInOrder(events, Interactive, b.routes[Interactive], b.now)
    && Differ(b.routes[Scheduled], b.routes[Watchdog]) && Differ(b.routes[Scheduled], b.routes[Interactive])
    && Differ(b.routes[Watchdog], b.routes[Interactive])
  }

  predicate Differ(s: Route, t: Route) { s.run != t.run && s.challenge != t.challenge }

  lemma ApartIs(routes: map<Role, Route>)
    requires Scheduled in routes && Watchdog in routes && Interactive in routes
    ensures Apart(routes) <==>
      Differ(routes[Scheduled], routes[Watchdog]) && Differ(routes[Scheduled], routes[Interactive])
      && Differ(routes[Watchdog], routes[Interactive])
  {
    var s, w, i := routes[Scheduled], routes[Watchdog], routes[Interactive];
    if Differ(s, w) && Differ(s, i) && Differ(w, i) {
      forall x, y | x in routes && y in routes && x != y ensures Differ(routes[x], routes[y]) {
        match (x, y)
        case (Scheduled, _) => assert y == Watchdog || y == Interactive;
        case (Watchdog, _) => assert y == Scheduled || y == Interactive;
        case (Interactive, _) => assert y == Scheduled || y == Watchdog;
      }
    }
  }

  lemma EachIs(events: seq<Event>, b: Bundle)
    requires Scheduled in b.routes && Watchdog in b.routes && Interactive in b.routes
    ensures EachOk(events, b) <==>
      && RouteInOrder(events, Scheduled, b.routes[Scheduled], b.now)
      && RouteInOrder(events, Watchdog, b.routes[Watchdog], b.now)
      && RouteInOrder(events, Interactive, b.routes[Interactive], b.now)
  {
    forall role | role in b.routes
      ensures RouteOk(events, role, b.routes[role], b.now) <==> RouteInOrder(events, role, b.routes[role], b.now)
    {
      RouteIs(events, role, b.routes[role], b.now);
    }
    hide RouteOk, RouteInOrder;
    forall role | role in b.routes ensures role == Scheduled || role == Watchdog || role == Interactive {
    }
  }

  lemma RoutesAre(events: seq<Event>, b: Bundle)
    ensures RoutesOk(events, b) <==> RoutesInOrder(events, b)
  {
    hide RouteOk, RouteInOrder, EachOk, Apart, Differ;
    if b.routes.Keys == {Scheduled, Watchdog, Interactive} {
      assert Scheduled in b.routes && Watchdog in b.routes && Interactive in b.routes;
      ApartIs(b.routes);
      EachIs(events, b);
    }
  }

  predicate OfARoute(b: Bundle, name: string) {
    exists role | role in b.routes :: b.routes[role].run == name
  }

  /** A file pair with times in order for exactly the older runs, each of which started and ended. */
  ghost predicate HistoryInOrder(events: seq<Event>, b: Bundle) {
    && (forall name :: name in b.historical <==>
          !OfARoute(b, name) && exists i, phase :: SaysSo(events, i, Run(name, phase)))
    && forall name | name in b.historical :: Closed(events, b, name)
  }

  ghost predicate Closed(events: seq<Event>, b: Bundle, name: string)
    requires name in b.historical
  {
    && (exists i :: SaysSo(events, i, Run(name, Started))) && (exists i :: SaysSo(events, i, Run(name, Terminal)))
    && b.historical[name].bound && b.historical[name].startedAt <= b.historical[name].finishedAt
    && b.historical[name].finishedAt <= b.now
  }

  lemma EitherPhase(events: seq<Event>, name: string)
    ensures (exists i, phase :: SaysSo(events, i, Run(name, phase))) <==>
      (exists i :: SaysSo(events, i, Run(name, Started))) || exists i :: SaysSo(events, i, Run(name, Terminal))
  {
    hide SaysSo;
    if i, phase :| SaysSo(events, i, Run(name, phase)) { assert phase == Started || phase == Terminal; }
  }

  lemma HistoryIs(events: seq<Event>, b: Bundle)
    ensures HistoryCovered(events, AsideOf(events), b) <==> HistoryInOrder(events, b)
  {
    var aside := AsideOf(events);
    forall name
      ensures name in b.historical && Ended(events, aside, b, name) <==> name in b.historical && Closed(events, b, name)
      ensures (exists i, phase :: SaysSo(events, i, Run(name, phase))) <==>
        Spoken(events, aside, name, Started) || Spoken(events, aside, name, Terminal)
      ensures name in RouteRuns(b) <==> OfARoute(b, name)
    {
      SpokenIs(events, name, Started);
      SpokenIs(events, name, Terminal);
      EitherPhase(events, name);
      hide Spoken, SaysSo;
    }
    hide Spoken, SaysSo, AsideOf, RouteRuns, OfARoute, Ended, Closed;
  }

  /** Exactly which bundles are accepted with a journal: the anchor lies within it, its prefix has the
      digest and is read, and corrections, runs, routes and older runs are in order. */
  lemma AdmittedIff(journal: string, b: Bundle, decode: string -> Option<Event>, hash: string -> string)
    ensures Admitted(journal, b, decode, hash) <==>
      && 1 <= b.byteCount <= 16777216 && b.byteCount <= |journal| && hash(journal[..b.byteCount]) == b.digest
      && Journal(journal[..b.byteCount], decode).Some?
      && var events := Journal(journal[..b.byteCount], decode).value;
        CorrectionsInOrder(events) && RunsInOrder(events) && RoutesInOrder(events, b) && HistoryInOrder(events, b)
  {
    hide Journal;
    if 1 <= b.byteCount <= |journal| && Journal(journal[..b.byteCount], decode).Some? {
      var events := Journal(journal[..b.byteCount], decode).value;
      CorrectionsAre(events);
      RunsAre(events);
      RoutesAre(events, b);
      HistoryIs(events, b);
      hide CorrectionsOk, AllOk, AllFinished, RoutesOk, HistoryCovered, AsideOf;
      hide CorrectionsInOrder, RunsInOrder, RoutesInOrder, HistoryInOrder;
    }
  }

  /** In an admitted prefix an event that says it started a run, by its identity alone, cites the start
      of a run, and a later event cites the end of that run. */
  lemma StartIsFollowedByEnd(journal: string, b: Bundle, decode: string -> Option<Event>, hash: string -> string,
                             i: nat, front: string) returns (name: string, j: nat)
    requires Admitted(journal, b, decode, hash) && Journal(journal[..b.byteCount], decode).Some?
    requires var events := Journal(journal[..b.byteCount], decode).value;
      && i < |events| && events[i].id !in AsideOf(events) && events[i].invocation.Some?
      && LegacyOf(events[i].id) == None && !events[i].phase.Known?
      && (events[i].id == front + "-start" || events[i].id == front + "-started")
    ensures var events := Journal(journal[..b.byteCount], decode).value;
      && Evidences(events[i], Run(name, Started))
      && i < j < |events| && Says(events, AsideOf(events), j, Run(name, Terminal))
  {
    hide Journal, CorrectionsOk, AsideOf, RoutesOk, HistoryCovered, Evidences, LegacyOf;
    var events := Journal(journal[..b.byteCount], decode).value;
    var aside := AsideOf(events);
    assert EventOk(events[i]);
    EndingReads(front);
    hide EndingOf, Readable;
    var run :| run in Named(events[i]);
    EndingDecides(events[i], front, run);
    hide Named;
    name := run.name;
    assert Says(events, aside, i, Run(name, Started));
    assert EndsAfter(events, aside, i, name);
    j :| i < j < |events| && Says(events, aside, j, Run(name, Terminal));
  }
}
