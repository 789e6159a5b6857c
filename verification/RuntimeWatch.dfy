/** scripts/operations/docker-runtime-watch.py: the row kept for each component, the poll
    that plans its transitions, the rollback of rows whose notification failed, and polls that
    raise between their notifications and the state file. */
module RuntimeWatch {
  import opened Prelude

  /** One inspected container. */
  datatype Seen = Seen(container: string, restarts: nat, healthy: bool)

  datatype Row = Row(seen: Seen, expected: bool, badStreak: nat, alertedBad: bool, transition: nat)

  datatype Kind = Missing | Restart | Unhealthy | Recovered

  datatype Event = Event(kind: Kind, component: string, transition: nat, restarts: nat)

  type Rows = map<string, Row>

  // ----- one component in one poll -----

  function NewRow(now: Seen): Row { Row(now, now.healthy, 0, false, 0) }

  function Expects(prior: Row, now: Seen): bool { prior.expected || now.healthy }

  predicate Restarted(prior: Row, now: Seen) {
    Expects(prior, now) && prior.seen.container == now.container && now.restarts > prior.seen.restarts
  }

  predicate TurnsBad(prior: Row, now: Option<Seen>) {
    match now
    case None => prior.expected && prior.badStreak >= 1 && !prior.alertedBad
    case Some(seen) => Expects(prior, seen) && !seen.healthy && prior.badStreak >= 1 && !prior.alertedBad
  }

  predicate Recovers(prior: Row, now: Option<Seen>) {
    now.Some? && now.value.healthy && prior.alertedBad
  }

  /** The kinds of the events this poll plans for the component, in order. */
  function Kinds(prior: Row, now: Option<Seen>): seq<Kind> {
    (if now.Some? && Restarted(prior, now.value) then [Restart] else []) +
    (if TurnsBad(prior, now) then [if now.None? then Missing else Unhealthy] else []) +
    (if Recovers(prior, now) then [Recovered] else [])
  }

  function NextRow(prior: Row, now: Option<Seen>): Row {
    match now
    case None =>
      prior.(badStreak := if prior.expected then prior.badStreak + 1 else prior.badStreak,
             alertedBad := prior.alertedBad || TurnsBad(prior, now),
             transition := prior.transition + |Kinds(prior, now)|)
    case Some(seen) =>
      var expected := Expects(prior, seen);
      Row(seen, expected,
          if expected && !seen.healthy then prior.badStreak + 1 else 0,
          if seen.healthy then false else prior.alertedBad || TurnsBad(prior, now),
          prior.transition + |Kinds(prior, now)|)
  }

  /** The planned events carry consecutive transition numbers after the row's own. */
  function Numbered(component: string, first: nat, restarts: nat, kinds: seq<Kind>): (es: seq<Event>)
    ensures |es| == |kinds|
    ensures forall i | 0 <= i < |es| :: es[i] == Event(kinds[i], component, first + i, restarts)
    decreases kinds
  {
    if kinds == [] then []
    else [Event(kinds[0], component, first, restarts)] + Numbered(component, first + 1, restarts, kinds[1..])
  }

  function Planned(component: string, prior: Row, now: Option<Seen>): seq<Event> {
    var restarts := if now.Some? then now.value.restarts else prior.seen.restarts;
    Numbered(component, prior.transition + 1, restarts, Kinds(prior, now))
  }

  // ----- one poll -----

  function Look(current: map<string, Seen>, key: string): Option<Seen> {
    if key in current then Some(current[key]) else None
  }

  function PlannedRow(known: Rows, current: map<string, Seen>, key: string): Row
    requires key in known || key in current
  {
    if key in known then NextRow(known[key], Look(current, key)) else NewRow(current[key])
  }

  function PlannedRows(known: Rows, current: map<string, Seen>): Rows {
    map key | key in known.Keys + current.Keys :: PlannedRow(known, current, key)
  }

  function PlannedFor(known: Rows, current: map<string, Seen>, key: string): seq<Event> {
    if key in known then Planned(key, known[key], Look(current, key)) else []
  }

  function PlannedEvents(known: Rows, current: map<string, Seen>, keys: seq<string>): seq<Event> {
    if keys == [] then []
    else PlannedEvents(known, current, keys[..|keys| - 1]) + PlannedFor(known, current, keys[|keys| - 1])
  }

  /** reconcile: `keys` is the sorted list of all keys of both maps. */
  method Reconcile(known: Rows, current: map<string, Seen>, keys: seq<string>) returns (rows: Rows, events: seq<Event>)
    requires (set i | 0 <= i < |keys| :: keys[i]) == known.Keys + current.Keys
    ensures rows == PlannedRows(known, current)
    ensures events == PlannedEvents(known, current, keys)
  {
    hide NextRow, NewRow, Planned, PlannedEvents;
    rows, events := map[], [];
    assert PlannedEvents(known, current, []) == [] by { EventsNone(known, current); }
    assert keys[..0] == [];
    var n := 0;
    while n < |keys|
      invariant 0 <= n <= |keys|
      invariant rows.Keys == set i | 0 <= i < n :: keys[i]
      invariant forall key | key in rows ::
        (key in known || key in current) && rows[key] == PlannedRow(known, current, key)
      invariant events == PlannedEvents(known, current, keys[..n])
    {
      var key := keys[n];
      EventsStep(known, current, keys, n);
      assert key in known.Keys + current.Keys;
      if key !in known {
        var now := current[key];
        rows := rows[key := NewRow(now)];
      } else if key !in current {
        var row, more := ReconcileMissing(key, known[key]);
        rows, events := rows[key := row], events + more;
      } else {
        var row, more := ReconcileSeen(key, known[key], current[key]);
        rows, events := rows[key := row], events + more;
      }
      n := n + 1;
    }
    assert keys[..n] == keys;
  }

  lemma EventsNone(known: Rows, current: map<string, Seen>)
    ensures PlannedEvents(known, current, []) == []
  {
  }

  lemma EventsStep(known: Rows, current: map<string, Seen>, keys: seq<string>, n: nat)
    requires n < |keys|
    ensures PlannedEvents(known, current, keys[..n + 1]) ==
      PlannedEvents(known, current, keys[..n]) + PlannedFor(known, current, keys[n])
  {
    assert keys[..n + 1][..n] == keys[..n];
  }

  /** The branch for an absent container. */
  method ReconcileMissing(key: string, prior: Row) returns (row: Row, events: seq<Event>)
    ensures row == NextRow(prior, None) && events == Planned(key, prior, None)
  {
    var transition, badStreak := prior.transition, prior.badStreak;
    events := [];
    if prior.expected { badStreak := badStreak + 1; }
    row := prior.(badStreak := badStreak);
    if prior.expected && badStreak >= 2 && !prior.alertedBad {
      transition := transition + 1;
      row := row.(alertedBad := true, transition := transition);
      events := events + [Event(Missing, key, transition, prior.seen.restarts)];
    }
  }

  /** The branch for a container that was inspected. */
  method ReconcileSeen(key: string, prior: Row, now: Seen) returns (row: Row, events: seq<Event>)
    ensures row == NextRow(prior, Some(now)) && events == Planned(key, prior, Some(now))
  {
    var expected, transition := prior.expected, prior.transition;
    var badStreak, alertedBad := prior.badStreak, prior.alertedBad;
    events := [];
    if !expected && now.healthy { expected := true; }
    if expected && prior.seen.container == now.container && now.restarts > prior.seen.restarts {
      transition := transition + 1;
      events := events + [Event(Restart, key, transition, now.restarts)];
    }
    if expected && !now.healthy {
      badStreak := badStreak + 1;
      if badStreak >= 2 && !alertedBad {
        transition := transition + 1;
        alertedBad := true;
        events := events + [Event(Unhealthy, key, transition, now.restarts)];
      }
    } else {
      badStreak := 0;
      if expected && alertedBad && now.healthy {
        transition := transition + 1;
        events := events + [Event(Recovered, key, transition, now.restarts)];
        alertedBad := false;
      }
    }
    row := Row(now, expected, badStreak, alertedBad, transition);
  }

  // ----- delivery and rollback -----

  predicate Lost(events: seq<Event>, refused: set<Event>, key: string) {
    exists i :: 0 <= i < |events| && events[i].component == key && events[i] in refused
  }

  /** What is written: a component one of whose events was not delivered keeps its old row. */
  function Kept(known: Rows, planned: Rows, events: seq<Event>, refused: set<Event>): Rows {
    map key | key in planned :: if Lost(events, refused, key) && key in known then known[key] else planned[key]
  }

  function Without(events: seq<Event>, refused: set<Event>): seq<Event> {
    if events == [] then []
    else
      var last := events[|events| - 1];
      Without(events[..|events| - 1], refused) + if last in refused then [] else [last]
  }

  /** The events a poll attempts: all of them, or so many until it raises. */
  function Cut(events: seq<Event>, raises: Option<nat>): seq<Event> {
    if raises.Some? && raises.value < |events| then events[..raises.value] else events
  }

  /** The rows in the state file after a poll. */
  function Written(known: Rows, current: map<string, Seen>, keys: seq<string>, refused: set<Event>,
                   raises: Option<nat>): Rows {
    if raises.Some? then known
    else Kept(known, PlannedRows(known, current), PlannedEvents(known, current, keys), refused)
  }

  datatype End = Clean | SomeFailed | Raised

  /** main: plan, notify, undo what could not be notified, and write.  A docker command or a
      notification may raise or time out after some of the events were attempted (the last of them
      delivered or not), and so may the write after all of them: then nothing is written. */
  method Poll(known: Rows, current: map<string, Seen>, keys: seq<string>, refused: set<Event>, raises: Option<nat>)
      returns (rows: Rows, delivered: seq<Event>, end: End)
    requires (set i | 0 <= i < |keys| :: keys[i]) == known.Keys + current.Keys
    ensures rows == Written(known, current, keys, refused, raises)
    ensures delivered == Without(Cut(PlannedEvents(known, current, keys), raises), refused)
    ensures end == Raised <==> raises.Some?
    ensures end == SomeFailed <==>
      raises == None && exists e :: e in PlannedEvents(known, current, keys) && e in refused
  {
    hide PlannedRows, PlannedEvents, Lost, Without;
    var events, failedKeys;
    rows, events := Reconcile(known, current, keys);
    failedKeys, delivered := Notify(Cut(events, raises), refused);
    if raises.Some? { return known, delivered, Raised; }
    rows := map key | key in rows :: if key in failedKeys && key in known then known[key] else rows[key];
    end := if failedKeys != {} then SomeFailed else Clean;
    SomeLost(events, refused, failedKeys);
  }

  /** The notification loop: the components one of whose events was not delivered. */
  method Notify(events: seq<Event>, refused: set<Event>) returns (failedKeys: set<string>, delivered: seq<Event>)
    ensures forall key :: key in failedKeys <==> Lost(events, refused, key)
    ensures delivered == Without(events, refused)
  {
    hide Lost, Without;
    failedKeys, delivered := {}, [];
    var n := 0;
    forall key ensures !Lost(events[..0], refused, key) { NoneLost(refused, key); }
    NoneSent(refused);
    assert events[..0] == [];
    while n < |events|
      invariant 0 <= n <= |events|
      invariant forall key :: key in failedKeys <==> Lost(events[..n], refused, key)
      invariant delivered == Without(events[..n], refused)
    {
      assert events[..n + 1] == events[..n] + [events[n]];
      WithoutMore(events[..n], events[n], refused);
      forall key ensures Lost(events[..n + 1], refused, key)
        <==> Lost(events[..n], refused, key) || (events[n].component == key && events[n] in refused) {
        LostMore(events[..n], events[n], refused, key);
      }
      if events[n] in refused {
        failedKeys := failedKeys + {events[n].component};
      } else {
        delivered := delivered + [events[n]];
      }
      n := n + 1;
    }
    assert events[..n] == events;
  }

  lemma WithoutMore(events: seq<Event>, e: Event, refused: set<Event>)
    ensures Without(events + [e], refused) == Without(events, refused) + if e in refused then [] else [e]
  {
    assert (events + [e])[..|events|] == events;
  }

  lemma NoneSent(refused: set<Event>)
    ensures Without([], refused) == []
  {
  }

  lemma NoneLost(refused: set<Event>, key: string)
    ensures !Lost([], refused, key)
  {
  }

  lemma SomeLost(events: seq<Event>, refused: set<Event>, failedKeys: set<string>)
    requires forall key :: key in failedKeys <==> Lost(events, refused, key)
    ensures failedKeys != {} <==> exists e :: e in events && e in refused
  {
    if failedKeys != {} {
      var key :| key in failedKeys;
      assert Lost(events, refused, key);
    }
    forall e | e in events && e in refused ensures e.component in failedKeys {
      assert Lost(events, refused, e.component);
    }
  }

  lemma LostMore(events: seq<Event>, e: Event, refused: set<Event>, key: string)
    ensures Lost(events + [e], refused, key) <==> Lost(events, refused, key) || (e.component == key && e in refused)
  {
    var more := events + [e];
    if Lost(events, refused, key) {
      var i :| 0 <= i < |events| && events[i].component == key && events[i] in refused;
      assert more[i] == events[i];
    }
    if e.component == key && e in refused {
      assert more[|events|] == e;
    }
  }

  // ----- one component over a whole run -----

  /** What one poll showed of the component, which of its notifications did not reach the notifier,
      and, when the poll raised, how many of them it had attempted. */
  datatype Turn = Turn(now: Option<Seen>, refused: set<Event>, aborted: Option<nat>)

  function EventsIn(component: string, row: Option<Row>, turn: Turn): seq<Event> {
    if row == None then [] else Planned(component, row.value, turn.now)
  }

  /** The row is not written: the poll raised, or one of the component's notifications was lost. */
  predicate Undone(component: string, row: Option<Row>, turn: Turn) {
    turn.aborted.Some? || exists e :: e in EventsIn(component, row, turn) && e in turn.refused
  }

  function RowAfterTurn(component: string, row: Option<Row>, turn: Turn): Option<Row> {
    if Undone(component, row, turn) then row
    else match (row, turn.now)
      case (None, None) => None
      case (None, Some(seen)) => Some(NewRow(seen))
      case (Some(prior), now) => Some(NextRow(prior, now))
  }

  function RowAfter(component: string, turns: seq<Turn>): Option<Row> {
    if turns == [] then None else RowAfterTurn(component, RowAfter(component, turns[..|turns| - 1]), turns[|turns| - 1])
  }

  /** The events whose transition was kept. */
  function Committed(component: string, turns: seq<Turn>): seq<Event> {
    if turns == [] then []
    else
      var n := |turns| - 1;
      var row := RowAfter(component, turns[..n]);
      Committed(component, turns[..n])
        + if Undone(component, row, turns[n]) then [] else EventsIn(component, row, turns[n])
  }

  /** The events of the turn that reached the notifier, kept or not. */
  function SentIn(component: string, row: Option<Row>, turn: Turn): seq<Event> {
    Without(Cut(EventsIn(component, row, turn), turn.aborted), turn.refused)
  }

  function Delivered(component: string, turns: seq<Turn>): seq<Event> {
    if turns == [] then []
    else
      var n := |turns| - 1;
      Delivered(component, turns[..n]) + SentIn(component, RowAfter(component, turns[..n]), turns[n])
  }

  /** The observations whose row was kept, from the first one that saw the component. */
  function History(component: string, turns: seq<Turn>): seq<Option<Seen>> {
    if turns == [] then []
    else
      var n := |turns| - 1;
      var row := RowAfter(component, turns[..n]);
      History(component, turns[..n]) +
        if (row == None && turns[n].now == None) || Undone(component, row, turns[n]) then [] else [turns[n].now]
  }

  // ----- a poll is one turn of every component -----

  /** The events of one component among some events. */
  function Of(events: seq<Event>, key: string): seq<Event> {
    if events == [] then []
    else Of(events[..|events| - 1], key) + if events[|events| - 1].component == key then [events[|events| - 1]] else []
  }

  function RowOf(known: Rows, key: string): Option<Row> { if key in known then Some(known[key]) else None }

  /** The turn a poll is for one component: it attempted so many of its events before it raised. */
  function TurnOf(known: Rows, current: map<string, Seen>, keys: seq<string>, refused: set<Event>, raises: Option<nat>,
                  key: string): Turn {
    Turn(Look(current, key), refused,
         if raises.Some? then Some(|Of(Cut(PlannedEvents(known, current, keys), raises), key)|) else None)
  }

  lemma {:induction false} OfConcat(a: seq<Event>, b: seq<Event>, key: string)
    ensures Of(a + b, key) == Of(a, key) + Of(b, key)
    decreases |b|
  {
    if b == [] {
      assert a + b == a;
    } else {
      OfConcat(a, b[..|b| - 1], key);
      assert (a + b)[..|a + b| - 1] == a + b[..|b| - 1];
    }
  }

  lemma OfMore(events: seq<Event>, e: Event, key: string)
    ensures Of(events + [e], key) == Of(events, key) + if e.component == key then [e] else []
  {
    assert (events + [e])[..|events|] == events;
  }

  lemma {:induction false} OfAll(events: seq<Event>, key: string)
    requires forall e | e in events :: e.component == key
    ensures Of(events, key) == events
    ensures forall other | other != key :: Of(events, other) == []
  {
    if events != [] {
      var front := events[..|events| - 1];
      assert events == front + [events[|events| - 1]];
      OfAll(front, key);
    }
  }

  lemma {:induction false} OfWithout(events: seq<Event>, refused: set<Event>, key: string)
    ensures Of(Without(events, refused), key) == Without(Of(events, key), refused)
  {
    if events != [] {
      var front, last := events[..|events| - 1], events[|events| - 1];
      OfWithout(front, refused, key);
      OfMore(Without(front, refused), last, key);
      WithoutMore(Of(front, key), last, refused);
      assert Without(front, refused) + [] == Without(front, refused);
      assert Without(events, refused) ==
        if last in refused then Without(front, refused) else Without(front, refused) + [last];
      assert Of(events, key) == if last.component == key then Of(front, key) + [last] else Of(front, key);
      hide Of, Without;
    }
  }

  /** The planned events of a component are what the plan holds of it. */
  lemma {:induction false} OfPlanned(known: Rows, current: map<string, Seen>, keys: seq<string>, key: string)
    requires forall i, j | 0 <= i < j < |keys| :: keys[i] != keys[j]
    ensures Of(PlannedEvents(known, current, keys), key) == if key in keys then PlannedFor(known, current, key) else []
  {
    hide Planned;
    if keys != [] {
      var front, last := keys[..|keys| - 1], keys[|keys| - 1];
      assert keys == front + [last] && last !in front;
      OfPlanned(known, current, front, key);
      OfConcat(PlannedEvents(known, current, front), PlannedFor(known, current, last), key);
      OwnEvents(known, current, last);
      OfAll(PlannedFor(known, current, last), last);
    }
  }

  lemma OwnEvents(known: Rows, current: map<string, Seen>, key: string)
    ensures forall e | e in PlannedFor(known, current, key) :: e.component == key
  {
    hide Kinds;
  }

  /** A poll, raised or not, leaves each component with exactly the row of its own turn, and has
      sent of its events exactly what that turn sends. */
  lemma PollIsTurn(known: Rows, current: map<string, Seen>, keys: seq<string>, refused: set<Event>, raises: Option<nat>,
                   key: string)
    requires (set i | 0 <= i < |keys| :: keys[i]) == known.Keys + current.Keys && key in known.Keys + current.Keys
    requires forall i, j | 0 <= i < j < |keys| :: keys[i] != keys[j]
    ensures var turn := TurnOf(known, current, keys, refused, raises, key);
      && RowOf(Written(known, current, keys, refused, raises), key) == RowAfterTurn(key, RowOf(known, key), turn)
      && Of(Without(Cut(PlannedEvents(known, current, keys), raises), refused), key)
        == SentIn(key, RowOf(known, key), turn)
  {
    hide Planned, PlannedEvents, Without, Of, NextRow;
    var events := PlannedEvents(known, current, keys);
    var turn := TurnOf(known, current, keys, refused, raises, key);
    assert key in keys;
    OfPlanned(known, current, keys, key);
    assert Of(events, key) == EventsIn(key, RowOf(known, key), turn);
    OfWithout(Cut(events, raises), refused, key);
    OfCut(events, raises, key);
    if raises == None { KeptRow(known, current, keys, refused, key); }
  }

  lemma OfCut(events: seq<Event>, raises: Option<nat>, key: string)
    ensures Of(Cut(events, raises), key)
      == Cut(Of(events, key), if raises.Some? then Some(|Of(Cut(events, raises), key)|) else None)
  {
    if raises.Some? && raises.value < |events| {
      var first, rest := events[..raises.value], events[raises.value..];
      assert events == first + rest;
      OfConcat(first, rest, key);
    }
  }

  lemma KeptRow(known: Rows, current: map<string, Seen>, keys: seq<string>, refused: set<Event>, key: string)
    requires (set i | 0 <= i < |keys| :: keys[i]) == known.Keys + current.Keys && key in known.Keys + current.Keys
    ensures RowOf(Written(known, current, keys, refused, None), key)
      == RowAfterTurn(key, RowOf(known, key), Turn(Look(current, key), refused, None))
  {
    hide Planned, NextRow, PlannedEvents;
    var events, turn := PlannedEvents(known, current, keys), Turn(Look(current, key), refused, None);
    assert key in keys;
    PlannedHas(known, current, keys, key);
    assert EventsIn(key, RowOf(known, key), turn) == PlannedFor(known, current, key);
    if Lost(events, refused, key) {
      var i :| 0 <= i < |events| && events[i].component == key && events[i] in refused;
      assert events[i] in PlannedFor(known, current, key);
    }
    if Undone(key, RowOf(known, key), turn) {
      var e :| e in PlannedFor(known, current, key) && e in refused;
      assert e in events && e.component == key;
    }
  }

  lemma {:induction false} PlannedHas(known: Rows, current: map<string, Seen>, keys: seq<string>, key: string)
    ensures forall e | e in PlannedEvents(known, current, keys) && e.component == key ::
      e in PlannedFor(known, current, key)
    ensures key in keys ==>
      forall e | e in PlannedFor(known, current, key) :: e in PlannedEvents(known, current, keys) && e.component == key
  {
    if keys != [] {
      hide PlannedFor;
      var front, last := keys[..|keys| - 1], keys[|keys| - 1];
      OwnEvents(known, current, last);
      PlannedHas(known, current, front, key);
      assert keys == front + [last];
    }
  }

  // ----- what holds over every run -----

  predicate RowInv(row: Row) {
    (row.alertedBad <==> row.expected && row.badStreak >= 2) && (!row.expected ==> row.badStreak == 0)
  }

  /** A kept row is alerted exactly when it is expected and has been bad twice in a row. */
  lemma {:induction false} AlertedIffBadTwice(component: string, turns: seq<Turn>)
    ensures RowAfter(component, turns).Some? ==> RowInv(RowAfter(component, turns).value)
  {
    if turns != [] {
      AlertedIffBadTwice(component, turns[..|turns| - 1]);
    }
  }

  /** A row never vanishes, and an event always has a prior row to fall back to. */
  lemma RowsNeverVanish(component: string, turns: seq<Turn>, turn: Turn)
    ensures RowAfter(component, turns).Some? ==> RowAfter(component, turns + [turn]).Some?
    ensures EventsIn(component, RowAfter(component, turns), turn) != [] ==> RowAfter(component, turns).Some?
  {
    assert (turns + [turn])[..|turns|] == turns;
  }

  /** The committed events of a component are numbered exactly 1, 2, 3, ... and the row holds the last number. */
  lemma {:induction false} CommittedNumbers(component: string, turns: seq<Turn>)
    ensures forall i | 0 <= i < |Committed(component, turns)| ::
      Committed(component, turns)[i].component == component && Committed(component, turns)[i].transition == i + 1
    ensures |Committed(component, turns)| ==
      match RowAfter(component, turns) case None => 0 case Some(row) => row.transition
  {
    if turns != [] {
      CommittedNumbers(component, turns[..|turns| - 1]);
    }
  }

  // ----- the row as a summary of the trace -----

  predicate Healthy(now: Option<Seen>) { now.Some? && now.value.healthy }

  /** How many observations at the end of the trace show the component missing or unhealthy. */
  function TrailingBad(trace: seq<Option<Seen>>): nat {
    if trace == [] || Healthy(trace[|trace| - 1]) then 0 else 1 + TrailingBad(trace[..|trace| - 1])
  }

  /** The row is determined by the kept observations: it is expected once one of them was
      healthy, and its streak is then the length of the bad run they end with. */
  lemma {:induction false} RowSummarisesTrace(component: string, turns: seq<Turn>)
    ensures RowAfter(component, turns) == None <==> History(component, turns) == []
    ensures RowAfter(component, turns).Some? ==>
      var row, trace := RowAfter(component, turns).value, History(component, turns);
      && (row.expected <==> exists i :: 0 <= i < |trace| && Healthy(trace[i]))
      && (row.expected ==> row.badStreak == TrailingBad(trace))
      && (row.alertedBad <==> row.expected && TrailingBad(trace) >= 2)
  {
    AlertedIffBadTwice(component, turns);
    if turns != [] {
      var n := |turns| - 1;
      var front, turn := turns[..n], turns[n];
      RowSummarisesTrace(component, front);
      AlertedIffBadTwice(component, front);
      var before, trace := History(component, front), History(component, turns);
      if trace != before {
        assert trace == before + [turn.now];
        assert trace[..|trace| - 1] == before;
        SummaryStep(component, RowAfter(component, front), turn, before, trace);
      }
    }
  }

  lemma SummaryStep(component: string, row: Option<Row>, turn: Turn, before: seq<Option<Seen>>,
                    trace: seq<Option<Seen>>)
    requires trace == before + [turn.now] && (row == None <==> before == [])
    requires row == None ==> turn.now.Some?
    requires !Undone(component, row, turn) && (row.Some? ==> RowInv(row.value))
    requires row.Some? ==> (row.value.expected <==> exists i :: 0 <= i < |before| && Healthy(before[i]))
    requires row.Some? && row.value.expected ==> row.value.badStreak == TrailingBad(before)
    ensures RowAfterTurn(component, row, turn).Some?
    ensures var next := RowAfterTurn(component, row, turn).value;
      && (next.expected <==> exists i :: 0 <= i < |trace| && Healthy(trace[i]))
      && (next.expected ==> next.badStreak == TrailingBad(trace))
  {
    hide Undone;
    assert trace[..|trace| - 1] == before;
    assert trace[|trace| - 1] == turn.now;
    var next := RowAfterTurn(component, row, turn).value;
    if row.Some? && row.value.expected {
      var i :| 0 <= i < |before| && Healthy(before[i]);
      assert Healthy(trace[i]);
    }
    if exists i :: 0 <= i < |trace| && Healthy(trace[i]) {
      var i :| 0 <= i < |trace| && Healthy(trace[i]);
      if i < |before| { assert Healthy(before[i]); }
    }
  }

  // ----- the order of alerts -----

  /** The alerts among some events: everything but restarts. */
  function Alerts(events: seq<Event>): seq<Event> {
    if events == [] then []
    else Alerts(events[..|events| - 1]) + if events[|events| - 1].kind == Restart then [] else [events[|events| - 1]]
  }

  lemma {:induction false} AlertsConcat(a: seq<Event>, b: seq<Event>)
    ensures Alerts(a + b) == Alerts(a) + Alerts(b)
    decreases |b|
  {
    if b == [] {
      assert a + b == a;
    } else {
      AlertsConcat(a, b[..|b| - 1]);
      assert (a + b)[..|a + b| - 1] == a + b[..|b| - 1];
    }
  }

  /** The last alert was a bad one. */
  predicate EndsBad(alerts: seq<Event>) { alerts != [] && alerts[|alerts| - 1].kind != Recovered }

  /** A recovery follows each bad alert and nothing else. */
  predicate Alternating(alerts: seq<Event>) {
    alerts == [] ||
    (var front, last := alerts[..|alerts| - 1], alerts[|alerts| - 1];
     Alternating(front) && (last.kind == Recovered <==> EndsBad(front)))
  }

  lemma {:induction false} AlternatingMore(alerts: seq<Event>, more: seq<Event>)
    requires Alternating(alerts) && |more| <= 1
    requires |more| == 1 ==> (more[0].kind == Recovered <==> EndsBad(alerts))
    ensures Alternating(alerts + more)
    ensures EndsBad(alerts + more) <==> (if |more| == 1 then !EndsBad(alerts) else EndsBad(alerts))
  {
    if more == [] {
      assert alerts + more == alerts;
    } else {
      var all := alerts + more;
      assert all[..|all| - 1] == alerts && all[|all| - 1] == more[0];
    }
  }

  /** Bad alerts and recoveries take turns, starting with a bad alert; the row is alerted exactly
      when the last one was bad. */
  lemma {:induction false} AlertsAlternate(component: string, turns: seq<Turn>)
    ensures var alerts := Alerts(Committed(component, turns));
      && Alternating(alerts)
      && (match RowAfter(component, turns)
          case None => alerts == []
          case Some(row) => row.alertedBad <==> EndsBad(alerts))
  {
    if turns != [] {
      hide Planned, NextRow, Alerts, Undone, RowInv, Alternating, EndsBad;
      var n := |turns| - 1;
      AlertsAlternate(component, turns[..n]);
      AlertedIffBadTwice(component, turns[..n]);
      var row := RowAfter(component, turns[..n]);
      if row.Some? && !Undone(component, row, turns[n]) {
        AlertsConcat(Committed(component, turns[..n]), Planned(component, row.value, turns[n].now));
        AlertsInTurn(component, row.value, turns[n].now);
        var alerts := Alerts(Committed(component, turns[..n]));
        var more := Alerts(Planned(component, row.value, turns[n].now));
        AlternatingMore(alerts, more);
      } else {
        assert Committed(component, turns) == Committed(component, turns[..n]);
      }
    } else {
      NoAlerts();
    }
  }

  lemma NoAlerts()
    ensures Alerts([]) == [] && Alternating([]) && !EndsBad([])
  {
  }

  lemma AlertsOfFew(a: Event, b: Event)
    ensures Alerts([]) == []
    ensures Alerts([a]) == if a.kind == Restart then [] else [a]
    ensures a.kind == Restart ==> Alerts([a, b]) == if b.kind == Restart then [] else [b]
  {
    assert [a][..0] == [] && [a, b][..1] == [a];
  }

  /** At most one alert in a turn, and it flips the row. */
  lemma AlertsInTurn(component: string, prior: Row, now: Option<Seen>)
    requires RowInv(prior)
    ensures var alerts := Alerts(Planned(component, prior, now));
      && |alerts| <= 1
      && (|alerts| == 1 ==> (alerts[0].kind == Recovered <==> prior.alertedBad))
      && (NextRow(prior, now).alertedBad <==> (if |alerts| == 1 then !prior.alertedBad else prior.alertedBad))
  {
    var events := Planned(component, prior, now);
    TurnShape(component, prior, now);
    FlagTurns(prior, now);
    hide Planned, NextRow, RowInv, TurnsBad, Recovers, Alerts;
    if events == [] {
      var any := Event(Missing, "", 0, 0);
      AlertsOfFew(any, any);
    } else if |events| == 1 {
      assert events == [events[0]];
      AlertsOfFew(events[0], events[0]);
    } else {
      assert events == [events[0], events[1]];
      AlertsOfFew(events[0], events[1]);
    }
  }

  /** The alert flag of the row turns over exactly when an alert or a recovery is planned. */
  lemma FlagTurns(prior: Row, now: Option<Seen>)
    requires RowInv(prior)
    ensures NextRow(prior, now).alertedBad <==>
      (if TurnsBad(prior, now) || Recovers(prior, now) then !prior.alertedBad else prior.alertedBad)
  {
    hide Kinds;
  }

  lemma TurnShape(component: string, prior: Row, now: Option<Seen>)
    requires RowInv(prior)
    ensures var events := Planned(component, prior, now);
      && |events| <= 2 && (|events| == 2 ==> events[0].kind == Restart && events[1].kind != Restart)
      && (forall i | 0 <= i < |events| && events[i].kind != Restart ::
          events[i].kind == Recovered <==> prior.alertedBad)
      && ((exists i :: 0 <= i < |events| && events[i].kind != Restart) <==>
          TurnsBad(prior, now) || Recovers(prior, now))
  {
    var kinds := Kinds(prior, now);
    var events := Planned(component, prior, now);
    if TurnsBad(prior, now) || Recovers(prior, now) {
      assert events[|events| - 1].kind == kinds[|kinds| - 1] != Restart;
    }
  }

  // ----- what the notifier sees -----

  /** How many events reached the notifier in turns that were undone. */
  function Ahead(component: string, turns: seq<Turn>): nat {
    if turns == [] then 0
    else
      var n := |turns| - 1;
      var row := RowAfter(component, turns[..n]);
      Ahead(component, turns[..n]) + if Undone(component, row, turns[n]) then |SentIn(component, row, turns[n])| else 0
  }

  /** No turn sent an event of the component and was then undone, whether by a lost event, by a
      poll that raised, or by a state file that could not be written. */
  predicate NeverTorn(component: string, turns: seq<Turn>) {
    turns == [] ||
    (var n := |turns| - 1; var row := RowAfter(component, turns[..n]);
     NeverTorn(component, turns[..n]) && (Undone(component, row, turns[n]) ==> SentIn(component, row, turns[n]) == []))
  }

  lemma {:induction false} NothingRefused(events: seq<Event>, refused: set<Event>)
    requires forall e | e in events :: e !in refused
    ensures Without(events, refused) == events
  {
    if events != [] {
      var front := events[..|events| - 1];
      assert events == front + [events[|events| - 1]];
      NothingRefused(front, refused);
    }
  }

  lemma KeptSendsAll(component: string, row: Option<Row>, turn: Turn)
    requires !Undone(component, row, turn)
    ensures SentIn(component, row, turn) == EventsIn(component, row, turn)
  {
    hide Planned, Without;
    NothingRefused(EventsIn(component, row, turn), turn.refused);
  }

  /** What the notifier saw beyond the committed events came from undone turns. */
  lemma {:induction false} AheadIsExcess(component: string, turns: seq<Turn>)
    ensures |Delivered(component, turns)| == |Committed(component, turns)| + Ahead(component, turns)
    ensures Ahead(component, turns) == 0 <==> NeverTorn(component, turns)
    ensures NeverTorn(component, turns) ==> Delivered(component, turns) == Committed(component, turns)
  {
    if turns != [] {
      hide EventsIn, SentIn, Undone, RowAfterTurn;
      var n := |turns| - 1;
      var row := RowAfter(component, turns[..n]);
      AheadIsExcess(component, turns[..n]);
      if !Undone(component, row, turns[n]) {
        KeptSendsAll(component, row, turns[n]);
      }
    }
  }

  /** The notifier sees exactly the committed events if and only if no turn that sent an event of
      the component was undone; the numbers it sees are then 1, 2, 3, ... */
  lemma DeliveredIsCommittedIffNeverTorn(component: string, turns: seq<Turn>)
    ensures Delivered(component, turns) == Committed(component, turns) <==> NeverTorn(component, turns)
    ensures NeverTorn(component, turns) ==>
      forall i | 0 <= i < |Delivered(component, turns)| :: Delivered(component, turns)[i].transition == i + 1
  {
    AheadIsExcess(component, turns);
    CommittedNumbers(component, turns);
  }

  /** What this turn sent is a stretch of what it planned, from behind the `ahead` events the
      notifier has in advance of the row. */
  predicate InStep(ahead: nat, planned: seq<Event>, sent: seq<Event>) {
    sent == [] || (ahead + |sent| <= |planned| && sent == planned[ahead..ahead + |sent|])
  }

  predicate AllInStep(component: string, turns: seq<Turn>) {
    turns == [] ||
    (var n := |turns| - 1; var row := RowAfter(component, turns[..n]);
     && AllInStep(component, turns[..n])
     && InStep(Ahead(component, turns[..n]), EventsIn(component, row, turns[n]), SentIn(component, row, turns[n])))
  }

  predicate Running(events: seq<Event>) { forall i | 0 <= i < |events| :: events[i].transition == i + 1 }

  /** What is sent is a subsequence of what was planned, which is numbered without gaps. */
  lemma {:induction false} SentFrom(planned: seq<Event>, refused: set<Event>, first: int, sent: seq<Event>)
    requires forall i | 0 <= i < |planned| :: planned[i].transition == first + i
    requires sent == Without(planned, refused)
    ensures forall k | 0 <= k < |sent| ::
      first <= sent[k].transition < first + |planned| && sent[k] == planned[sent[k].transition - first]
  {
    if planned != [] {
      var front := planned[..|planned| - 1];
      SentFrom(front, refused, first, Without(front, refused));
    }
  }

  lemma SentAt(component: string, row: Option<Row>, turn: Turn, first: int)
    requires row.Some? ==> first == row.value.transition + 1
    ensures var sent, planned := SentIn(component, row, turn), EventsIn(component, row, turn);
      && (forall i | 0 <= i < |planned| :: planned[i].transition == first + i)
      && forall k | 0 <= k < |sent| ::
        first <= sent[k].transition < first + |planned| && sent[k] == planned[sent[k].transition - first]
  {
    hide Without, Kinds;
    var planned := EventsIn(component, row, turn);
    SentFrom(Cut(planned, turn.aborted), turn.refused, first, SentIn(component, row, turn));
  }

  lemma NumberedOnIffInStep(ahead: nat, planned: seq<Event>, sent: seq<Event>, first: int)
    requires forall i | 0 <= i < |planned| :: planned[i].transition == first + i
    requires forall k | 0 <= k < |sent| ::
      first <= sent[k].transition < first + |planned| && sent[k] == planned[sent[k].transition - first]
    ensures (forall k | 0 <= k < |sent| :: sent[k].transition == first + ahead + k) <==> InStep(ahead, planned, sent)
  {
    if sent != [] && forall k | 0 <= k < |sent| :: sent[k].transition == first + ahead + k {
      assert sent[|sent| - 1].transition == first + ahead + |sent| - 1;
      forall k | 0 <= k < |sent| ensures sent[k] == planned[ahead..ahead + |sent|][k] {
        assert sent[k].transition == first + ahead + k;
      }
    }
  }

  lemma RunningMore(before: seq<Event>, more: seq<Event>)
    ensures Running(before + more) <==>
      Running(before) && forall k | 0 <= k < |more| :: more[k].transition == |before| + k + 1
  {
    var all := before + more;
    if Running(all) {
      assert forall i | 0 <= i < |before| :: all[i] == before[i];
      assert forall k | 0 <= k < |more| :: all[|before| + k] == more[k];
    }
  }

  /** Exactly when the numbers the notifier sees are 1, 2, 3, ...: every turn that sent something
      sent a stretch of its plan that starts right behind what undone turns had already sent. */
  lemma {:induction false} NumbersRunIff(component: string, turns: seq<Turn>)
    ensures Running(Delivered(component, turns)) <==> AllInStep(component, turns)
  {
    if turns != [] {
      hide EventsIn, SentIn, Undone, RowAfterTurn, Running, InStep, NeverTorn, Ahead, Committed, RowAfter;
      var n := |turns| - 1;
      NumbersRunIff(component, turns[..n]);
      NumbersRunStep(component, turns[..n], turns[n]);
    }
  }

  lemma NumbersRunStep(component: string, turns: seq<Turn>, turn: Turn)
    ensures var row := RowAfter(component, turns); var sent := SentIn(component, row, turn);
      Running(Delivered(component, turns) + sent) <==>
        Running(Delivered(component, turns)) && InStep(Ahead(component, turns), EventsIn(component, row, turn), sent)
  {
    hide EventsIn, SentIn, Running, InStep, NeverTorn, Ahead, Committed, RowAfter, Delivered;
    var row := RowAfter(component, turns);
    var sent, first := SentIn(component, row, turn), |Committed(component, turns)| + 1;
    AheadIsExcess(component, turns);
    CommittedNumbers(component, turns);
    SentAt(component, row, turn, first);
    NumberedOnIffInStep(Ahead(component, turns), EventsIn(component, row, turn), sent, first);
    RunningMore(Delivered(component, turns), sent);
  }

  /** Three turns in a row. */
  function Three(t0: Turn, t1: Turn, t2: Turn): seq<Turn> { [t0] + [t1] + [t2] }

  /** A torn turn does not always show: its first number is used and nothing follows. */
  lemma TornMayStillRun(component: string) returns (turns: seq<Turn>)
    ensures !NeverTorn(component, turns) && Running(Delivered(component, turns)) && Delivered(component, turns) != []
  {
    var t0, t1, t2 := Turn(Some(Seen("c", 0, true)), {}, None), Turn(Some(Seen("c", 0, false)), {}, None),
      Turn(Some(Seen("c", 1, false)), {Event(Unhealthy, component, 2, 1)}, None);
    TornRun(component, t0, t1, t2);
    turns := Three(t0, t1, t2);
    AheadIsExcess(component, turns);
  }

  /** A run in which one number reaches the notifier twice, for two different events: a restart
      is reported, the report of the bad health that came with it is lost, the row is undone,
      and the next poll reports the vanished container under the number of the restart. */
  lemma NumbersMayRepeatAtTheNotifier(component: string) returns (turns: seq<Turn>)
    ensures var d := Delivered(component, turns);
      |d| == 2 && d[0].transition == d[1].transition && d[0].kind != d[1].kind
  {
    hide RowAfter, SentIn, Delivered, Committed, RowAfterTurn, Undone, EventsIn, Three;
    var t0, t1, t2 := Turn(Some(Seen("c", 0, true)), {}, None), Turn(Some(Seen("c", 0, false)), {}, None),
      Turn(Some(Seen("c", 1, false)), {Event(Unhealthy, component, 2, 1)}, None);
    var t3 := Turn(None, {}, None);
    TornRun(component, t0, t1, t2);
    turns := Three(t0, t1, t2) + [t3];
    MissingSent(component, Row(Seen("c", 0, false), true, 1, false, 0), t3);
    OneTurnMore(component, Three(t0, t1, t2), t3);
  }

  lemma OneTurnMore(component: string, turns: seq<Turn>, turn: Turn)
    ensures var row := RowAfter(component, turns);
      && RowAfter(component, turns + [turn]) == RowAfterTurn(component, row, turn)
      && Delivered(component, turns + [turn]) == Delivered(component, turns) + SentIn(component, row, turn)
      && Committed(component, turns + [turn]) == Committed(component, turns)
        + if Undone(component, row, turn) then [] else EventsIn(component, row, turn)
  {
    hide SentIn, RowAfterTurn, Undone, EventsIn;
    assert (turns + [turn])[..|turns|] == turns;
  }

  lemma MissingSent(component: string, row: Row, turn: Turn)
    requires row == Row(Seen("c", 0, false), true, 1, false, 0) && turn == Turn(None, {}, None)
    ensures SentIn(component, Some(row), turn) == [Event(Missing, component, 1, 0)]
  {
    assert Kinds(row, None) == [Missing];
    var planned := EventsIn(component, Some(row), turn);
    assert planned == [Event(Missing, component, 1, 0)];
    NothingRefused(planned, {});
  }

  /** The first poll makes the row, the second one makes it bad once. */
  lemma QuietTurns(component: string, first: Row, second: Row, t0: Turn, t1: Turn)
    requires first == Row(Seen("c", 0, true), true, 0, false, 0)
    requires second == Row(Seen("c", 0, false), true, 1, false, 0)
    requires t0 == Turn(Some(Seen("c", 0, true)), {}, None) && t1 == Turn(Some(Seen("c", 0, false)), {}, None)
    ensures RowAfterTurn(component, None, t0) == Some(first) && RowAfterTurn(component, Some(first), t1) == Some(second)
    ensures EventsIn(component, None, t0) == [] == EventsIn(component, Some(first), t1)
    ensures SentIn(component, None, t0) == [] == SentIn(component, Some(first), t1)
    ensures !Undone(component, None, t0) && !Undone(component, Some(first), t1)
  {
    assert Kinds(first, t1.now) == [];
  }

  lemma TornTurnSends(component: string, row: Row, turn: Turn)
    requires row == Row(Seen("c", 0, false), true, 1, false, 0)
    requires turn == Turn(Some(Seen("c", 1, false)), {Event(Unhealthy, component, 2, 1)}, None)
    ensures Undone(component, Some(row), turn) && RowAfterTurn(component, Some(row), turn) == Some(row)
    ensures SentIn(component, Some(row), turn) == [Event(Restart, component, 1, 1)]
  {
    assert Kinds(row, turn.now) == [Restart, Unhealthy];
    var planned := Planned(component, row, turn.now);
    assert planned == [Event(Restart, component, 1, 1), Event(Unhealthy, component, 2, 1)];
    SentBeforeLoss(planned[0], planned[1]);
    assert planned[1] in turn.refused;
  }

  lemma SentBeforeLoss(a: Event, b: Event)
    requires a != b
    ensures Without([a, b], {b}) == [a]
  {
    assert [a, b][..1] == [a] && [a][..0] == [];
    assert Without([a], {b}) == [a];
  }

  /** A restart is reported, and the bad health that came with it is not. */
  lemma TornRun(component: string, t0: Turn, t1: Turn, t2: Turn)
    requires t0 == Turn(Some(Seen("c", 0, true)), {}, None) && t1 == Turn(Some(Seen("c", 0, false)), {}, None)
    requires t2 == Turn(Some(Seen("c", 1, false)), {Event(Unhealthy, component, 2, 1)}, None)
    ensures RowAfter(component, Three(t0, t1, t2)) == Some(Row(Seen("c", 0, false), true, 1, false, 0))
    ensures Delivered(component, Three(t0, t1, t2)) == [Event(Restart, component, 1, 1)]
    ensures Committed(component, Three(t0, t1, t2)) == []
  {
    hide RowAfterTurn, SentIn, EventsIn, Undone, RowAfter, Delivered, Committed, Three;
    var first, second := Row(Seen("c", 0, true), true, 0, false, 0), Row(Seen("c", 0, false), true, 1, false, 0);
    QuietTurns(component, first, second, t0, t1);
    TornTurnSends(component, second, t2);
    ThreeTurns(component, t0, t1, t2, first, second);
  }

  /** Two turns without events and one that is undone. */
  lemma ThreeTurns(component: string, t0: Turn, t1: Turn, t2: Turn, first: Row, second: Row)
    requires RowAfterTurn(component, None, t0) == Some(first)
    requires RowAfterTurn(component, Some(first), t1) == Some(second)
    requires !Undone(component, None, t0) && !Undone(component, Some(first), t1) && Undone(component, Some(second), t2)
    requires EventsIn(component, None, t0) == [] == EventsIn(component, Some(first), t1)
    requires SentIn(component, None, t0) == [] == SentIn(component, Some(first), t1)
    ensures RowAfter(component, Three(t0, t1, t2)) == Some(second) && Committed(component, Three(t0, t1, t2)) == []
    ensures Delivered(component, Three(t0, t1, t2)) == SentIn(component, Some(second), t2)
  {
    NoTurns(component);
    UndoneKeeps(component, Some(second), t2);
    hide RowAfterTurn, SentIn, EventsIn, Undone, RowAfter, Delivered, Committed;
    var one, two := [t0], [t0] + [t1];
    assert [] + [t0] == one;
    OneTurnMore(component, [], t0);
    OneTurnMore(component, one, t1);
    OneTurnMore(component, two, t2);
  }

  lemma NoTurns(component: string)
    ensures RowAfter(component, []) == None && Delivered(component, []) == [] && Committed(component, []) == []
  {
  }

  lemma UndoneKeeps(component: string, row: Option<Row>, turn: Turn)
    requires Undone(component, row, turn)
    ensures RowAfterTurn(component, row, turn) == row
  {
  }
}
