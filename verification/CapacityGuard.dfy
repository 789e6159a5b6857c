/** scripts/operations/host-capacity-guard.py: threshold levels, streaks with hysteresis, the
    rollback of a metric's row when its notification failed, and polls that raise before the
    state file is written. */
module CapacityGuard {
  import opened Prelude

  datatype Metric = Cpu | Disk | DockerDisk | Load | Memory | Network | Swap

  datatype Level = Healthy | Warning | Critical

  datatype Kind = WarningEvent | CriticalEvent | RecoveredEvent

  datatype Event = Event(kind: Kind, metric: Metric, value: real, threshold: real, transition: nat)

  datatype Row = Row(value: real, level: Level, alerted: Level,
                     warnings: nat, criticals: nat, healthies: nat, transition: nat)

  const WARNING_STREAK := 3
  const CRITICAL_STREAK := 2
  const RECOVERY_STREAK := 3

  function WarningAt(m: Metric): real {
    match m
    case Cpu => 70.0
    case Disk => 70.0
    case DockerDisk => 70.0
    case Load => 75.0
    case Memory => 75.0
    case Network => 65.0
    case Swap => 20.0
  }

  function CriticalAt(m: Metric): real {
    match m
    case Cpu => 85.0
    case Disk => 85.0
    case DockerDisk => 85.0
    case Load => 100.0
    case Memory => 85.0
    case Network => 80.0
    case Swap => 50.0
  }

  function Classify(m: Metric, value: real): Level {
    if value >= CriticalAt(m) then Critical else if value >= WarningAt(m) then Warning else Healthy
  }

  // ----- one metric in one poll -----

  /** What a metric without a row starts from. */
  const BLANK := Row(0.0, Healthy, Healthy, 0, 0, 0, 0)

  function Warnings(prior: Row, level: Level): nat { if level == Healthy then 0 else prior.warnings + 1 }

  function Criticals(prior: Row, level: Level): nat { if level == Critical then prior.criticals + 1 else 0 }

  function Healthies(prior: Row, level: Level): nat { if level == Healthy then prior.healthies + 1 else 0 }

  function Announced(prior: Row, level: Level): Option<Kind> {
    match level
    case Critical =>
      if Criticals(prior, level) >= CRITICAL_STREAK && prior.alerted != Critical then Some(CriticalEvent) else None
    case Warning =>
      if Warnings(prior, level) >= WARNING_STREAK && prior.alerted == Healthy then Some(WarningEvent) else None
    case Healthy =>
      if Healthies(prior, level) >= RECOVERY_STREAK && prior.alerted != Healthy then Some(RecoveredEvent) else None
  }

  function AlertedAfter(prior: Row, level: Level): Level {
    match Announced(prior, level)
    case Some(CriticalEvent) => Critical
    case Some(WarningEvent) => Warning
    case Some(RecoveredEvent) => Healthy
    case None => prior.alerted
  }

  function NextRow(m: Metric, prior: Row, value: real): Row {
    var level := Classify(m, value);
    Row(value, level, AlertedAfter(prior, level),
        Warnings(prior, level), Criticals(prior, level), Healthies(prior, level),
        prior.transition + if Announced(prior, level).Some? then 1 else 0)
  }

  function Planned(m: Metric, prior: Row, value: real): Option<Event> {
    match Announced(prior, Classify(m, value))
    case None => None
    case Some(kind) =>
      Some(Event(kind, m, value, if kind == CriticalEvent then CriticalAt(m) else WarningAt(m), prior.transition + 1))
  }

  // ----- one poll -----

  type Rows = map<Metric, Row>

  /** Sorted by the metrics' names. */
  const METRICS := [Cpu, Disk, DockerDisk, Load, Memory, Network, Swap]

  function RowOf(rows: Rows, m: Metric): Row { if m in rows then rows[m] else BLANK }

  function ValueOf(metrics: map<Metric, real>, m: Metric): real { if m in metrics then metrics[m] else 0.0 }

  method ReconcileCapacity(prior: Rows, metrics: map<Metric, real>) returns (rows: Rows, events: seq<Event>)
    ensures forall m :: m in rows && rows[m] == NextRow(m, RowOf(prior, m), ValueOf(metrics, m))
    ensures forall e ::
      e in events <==> Planned(e.metric, RowOf(prior, e.metric), ValueOf(metrics, e.metric)) == Some(e)
  {
    hide NextRow, Planned;
    rows, events := map[], [];
    var n := 0;
    while n < |METRICS|
      invariant 0 <= n <= |METRICS|
      invariant forall k | 0 <= k < n ::
        METRICS[k] in rows
        && rows[METRICS[k]] == NextRow(METRICS[k], RowOf(prior, METRICS[k]), ValueOf(metrics, METRICS[k]))
      invariant forall e | e in events ::
        Planned(e.metric, RowOf(prior, e.metric), ValueOf(metrics, e.metric)) == Some(e)
      invariant forall k | 0 <= k < n ::
        var p := Planned(METRICS[k], RowOf(prior, METRICS[k]), ValueOf(metrics, METRICS[k]));
        p.Some? ==> p.value in events
    {
      var m := METRICS[n];
      var row, event := ReconcileMetric(m, RowOf(prior, m), ValueOf(metrics, m));
      rows := rows[m := row];
      if event.Some? {
        events := events + [event.value];
      }
      n := n + 1;
    }
    forall m ensures m in rows && rows[m] == NextRow(m, RowOf(prior, m), ValueOf(metrics, m)) {
      var k := EveryMetricListed(m);
      assert METRICS[k] in rows;
    }
    forall e: Event | Planned(e.metric, RowOf(prior, e.metric), ValueOf(metrics, e.metric)) == Some(e)
      ensures e in events
    {
      var k := EveryMetricListed(e.metric);
      assert METRICS[k] in rows;
    }
  }

  lemma EveryMetricListed(m: Metric) returns (k: nat)
    ensures k < |METRICS| && METRICS[k] == m
  {
    k := match m
      case Cpu => 0
      case Disk => 1
      case DockerDisk => 2
      case Load => 3
      case Memory => 4
      case Network => 5
      case Swap => 6;
  }

  method ReconcileMetric(m: Metric, prior: Row, value: real) returns (row: Row, event: Option<Event>)
    ensures row == NextRow(m, prior, value) && event == Planned(m, prior, value)
    ensures event.Some? ==> event.value.metric == m
  {
    var level := Classify(m, value);
    var alerted, transition := prior.alerted, prior.transition;
    var warnings, criticals, healthies := prior.warnings, prior.criticals, prior.healthies;
    var kind: Option<Kind>, threshold := None, WarningAt(m);
    if level == Critical {
      warnings, criticals, healthies := warnings + 1, criticals + 1, 0;
      if criticals >= CRITICAL_STREAK && alerted != Critical {
        kind, threshold, alerted := Some(CriticalEvent), CriticalAt(m), Critical;
      }
    } else if level == Warning {
      warnings, criticals, healthies := warnings + 1, 0, 0;
      if warnings >= WARNING_STREAK && alerted == Healthy {
        kind, threshold, alerted := Some(WarningEvent), WarningAt(m), Warning;
      }
    } else {
      warnings, criticals, healthies := 0, 0, healthies + 1;
      if healthies >= RECOVERY_STREAK && alerted != Healthy {
        kind, threshold, alerted := Some(RecoveredEvent), WarningAt(m), Healthy;
      }
    }
    event := None;
    if kind.Some? {
      transition := transition + 1;
      event := Some(Event(kind.value, m, value, threshold, transition));
    }
    row := Row(value, level, alerted, warnings, criticals, healthies, transition);
  }

  // ----- one metric in one turn -----

  /** What a poll measured, whether the metric's notification (if there was one) did not reach the
      notifier, and whether the poll raised before its state was written. */
  datatype Turn = Turn(value: real, refused: bool, aborted: bool)

  function Prior(row: Option<Row>): Row { if row.Some? then row.value else BLANK }

  function EventIn(m: Metric, row: Option<Row>, turn: Turn): Option<Event> { Planned(m, Prior(row), turn.value) }

  /** The old row stays: nothing was written, or the notification failed and there is a row to keep. */
  predicate Undone(m: Metric, row: Option<Row>, turn: Turn) {
    turn.aborted || (row.Some? && turn.refused && EventIn(m, row, turn).Some?)
  }

  function RowAfterTurn(m: Metric, row: Option<Row>, turn: Turn): Option<Row> {
    if Undone(m, row, turn) then row else Some(NextRow(m, Prior(row), turn.value))
  }

  function Find(rows: Rows, m: Metric): Option<Row> { if m in rows then Some(rows[m]) else None }

  /** The turn that a poll is for one metric. */
  function TurnOf(metrics: map<Metric, real>, delivered: seq<Event>, raised: bool, m: Metric): Turn {
    Turn(ValueOf(metrics, m), !(exists k :: 0 <= k < |delivered| && delivered[k].metric == m), raised)
  }

  /** main: plan, notify, give back the old row of every metric whose notification failed, write.
      A notification or the write may raise after `raises` events were attempted. */
  method Poll(prior: Rows, metrics: map<Metric, real>, refused: set<Metric>, raises: Option<nat>)
      returns (rows: Rows, delivered: seq<Event>)
    ensures forall m :: Find(rows, m) == RowAfterTurn(m, Find(prior, m), TurnOf(metrics, delivered, raises.Some?, m))
    ensures forall e | e in delivered ::
      Planned(e.metric, RowOf(prior, e.metric), ValueOf(metrics, e.metric)) == Some(e) && e.metric !in refused
    ensures raises == None ==> forall e: Event ::
      Planned(e.metric, RowOf(prior, e.metric), ValueOf(metrics, e.metric)) == Some(e) && e.metric !in refused ==>
        e in delivered
  {
    hide NextRow, Planned;
    var events, failed;
    rows, events := ReconcileCapacity(prior, metrics);
    var attempted := if raises.Some? && raises.value < |events| then events[..raises.value] else events;
    failed, delivered := Notify(attempted, refused);
    if raises.Some? { return prior, delivered; }
    forall m ensures m in failed <==> m in refused && Planned(m, RowOf(prior, m), ValueOf(metrics, m)).Some? {
      FailedExactly(prior, metrics, refused, events, failed, m);
    }
    rows := map m | m in rows :: if m in failed && m in prior then prior[m] else rows[m];
    forall m ensures Find(rows, m) == RowAfterTurn(m, Find(prior, m), TurnOf(metrics, delivered, false, m)) {
      if Planned(m, RowOf(prior, m), ValueOf(metrics, m)).Some? {
        DeliveredExactly(prior, metrics, refused, delivered, m);
      }
    }
  }

  /** The notification loop: the metrics whose event was not delivered, and the events that were. */
  method Notify(events: seq<Event>, refused: set<Metric>) returns (failed: set<Metric>, delivered: seq<Event>)
    ensures failed == set k | 0 <= k < |events| && events[k].metric in refused :: events[k].metric
    ensures forall e :: e in delivered <==> e in events && e.metric !in refused
  {
    failed, delivered := {}, [];
    var n := 0;
    while n < |events|
      invariant 0 <= n <= |events|
      invariant failed == set k | 0 <= k < n && events[k].metric in refused :: events[k].metric
      invariant forall e :: e in delivered <==> e in events[..n] && e.metric !in refused
    {
      assert events[..n + 1] == events[..n] + [events[n]];
      if events[n].metric in refused {
        failed := failed + {events[n].metric};
      } else {
        delivered := delivered + [events[n]];
      }
      n := n + 1;
    }
    assert events[..n] == events;
  }

  lemma FailedExactly(prior: Rows, metrics: map<Metric, real>, refused: set<Metric>, events: seq<Event>,
                      failed: set<Metric>, m: Metric)
    requires forall e ::
      e in events <==> Planned(e.metric, RowOf(prior, e.metric), ValueOf(metrics, e.metric)) == Some(e)
    requires failed == set k | 0 <= k < |events| && events[k].metric in refused :: events[k].metric
    ensures m in failed <==> m in refused && Planned(m, RowOf(prior, m), ValueOf(metrics, m)).Some?
  {
    var planned := Planned(m, RowOf(prior, m), ValueOf(metrics, m));
    if m in failed {
      var k :| 0 <= k < |events| && events[k].metric == m;
      assert events[k] in events;
    }
    if planned.Some? && m in refused {
      assert planned.value in events;
    }
  }

  /** Without a raise, a planned event did not reach the notifier exactly when it was refused. */
  lemma DeliveredExactly(prior: Rows, metrics: map<Metric, real>, refused: set<Metric>, delivered: seq<Event>,
                         m: Metric)
    requires forall e :: e in delivered <==>
      Planned(e.metric, RowOf(prior, e.metric), ValueOf(metrics, e.metric)) == Some(e) && e.metric !in refused
    requires Planned(m, RowOf(prior, m), ValueOf(metrics, m)).Some?
    ensures TurnOf(metrics, delivered, false, m).refused <==> m in refused
  {
    var planned := Planned(m, RowOf(prior, m), ValueOf(metrics, m));
    if m !in refused {
      assert planned.value in delivered;
      var k :| 0 <= k < |delivered| && delivered[k] == planned.value;
      assert delivered[k].metric == m;
    } else if exists k :: 0 <= k < |delivered| && delivered[k].metric == m {
      var k :| 0 <= k < |delivered| && delivered[k].metric == m;
      assert delivered[k] in delivered;
    }
  }

  // ----- one metric over a whole run -----

  function RowAfter(m: Metric, turns: seq<Turn>): Option<Row> {
    if turns == [] then None else RowAfterTurn(m, RowAfter(m, turns[..|turns| - 1]), turns[|turns| - 1])
  }

  /** The levels of the polls whose row was kept. */
  function Levels(m: Metric, turns: seq<Turn>): seq<Level> {
    if turns == [] then []
    else
      var n := |turns| - 1;
      Levels(m, turns[..n]) + if Undone(m, RowAfter(m, turns[..n]), turns[n]) then [] else [Classify(m, turns[n].value)]
  }

  /** The events that were notified and kept. */
  function Committed(m: Metric, turns: seq<Turn>): seq<Event> {
    if turns == [] then []
    else
      var n := |turns| - 1;
      var event := EventIn(m, RowAfter(m, turns[..n]), turns[n]);
      Committed(m, turns[..n])
        + if event.Some? && !Undone(m, RowAfter(m, turns[..n]), turns[n]) then [event.value] else []
  }

  // ----- invariants of the persisted row -----

  lemma {:induction false} RowInvariant(m: Metric, turns: seq<Turn>)
    ensures var row := Prior(RowAfter(m, turns));
      && row.criticals <= row.warnings
      && (row.criticals >= 2 ==> row.alerted == Critical)
      && (row.healthies >= 3 ==> row.alerted == Healthy)
      && (row.warnings >= 3 && row.criticals == 0 ==> row.alerted != Healthy)
  {
    if turns != [] {
      RowInvariant(m, turns[..|turns| - 1]);
    }
  }

  /** No event without a prior row, so a failed notification can always be undone. */
  lemma NoEventWithoutRow(m: Metric, turns: seq<Turn>, turn: Turn)
    ensures EventIn(m, RowAfter(m, turns), turn).Some? ==> RowAfter(m, turns).Some?
  {
    hide RowAfter;
  }

  lemma {:induction false} CommittedNumbers(m: Metric, turns: seq<Turn>)
    ensures forall i | 0 <= i < |Committed(m, turns)| ::
      Committed(m, turns)[i].metric == m && Committed(m, turns)[i].transition == i + 1
    ensures |Committed(m, turns)| == Prior(RowAfter(m, turns)).transition
  {
    if turns != [] {
      CommittedNumbers(m, turns[..|turns| - 1]);
    }
  }

  // ----- what the notifier sees -----

  /** The turn's event reached the notifier. */
  predicate Sends(m: Metric, row: Option<Row>, turn: Turn) { EventIn(m, row, turn).Some? && !turn.refused }

  /** The events that reached the notifier, kept or not. */
  function Delivered(m: Metric, turns: seq<Turn>): seq<Event> {
    if turns == [] then []
    else
      var n := |turns| - 1;
      var row := RowAfter(m, turns[..n]);
      Delivered(m, turns[..n]) + if Sends(m, row, turns[n]) then [EventIn(m, row, turns[n]).value] else []
  }

  /** How many events reached the notifier in turns that then raised. */
  function Ahead(m: Metric, turns: seq<Turn>): nat {
    if turns == [] then 0
    else
      var n := |turns| - 1;
      Ahead(m, turns[..n]) + if turns[n].aborted && Sends(m, RowAfter(m, turns[..n]), turns[n]) then 1 else 0
  }

  lemma {:induction false} AheadIsExcess(m: Metric, turns: seq<Turn>)
    ensures |Delivered(m, turns)| == |Committed(m, turns)| + Ahead(m, turns)
    ensures Ahead(m, turns) == 0 ==> Delivered(m, turns) == Committed(m, turns)
  {
    if turns != [] {
      var n := |turns| - 1;
      AheadIsExcess(m, turns[..n]);
      NoEventWithoutRow(m, turns[..n], turns[n]);
      hide EventIn, RowAfter;
    }
  }

  /** After a turn that sent its event and then raised, nothing was sent any more. */
  predicate SilentAfterRaise(m: Metric, turns: seq<Turn>) {
    turns == [] ||
    (var n := |turns| - 1;
     && SilentAfterRaise(m, turns[..n])
     && (Ahead(m, turns[..n]) > 0 ==> !Sends(m, RowAfter(m, turns[..n]), turns[n])))
  }

  predicate Running(events: seq<Event>) { forall i | 0 <= i < |events| :: events[i].transition == i + 1 }

  /** The notifier sees exactly the committed events if and only if no turn raised after its event
      was sent; the numbers it sees are 1, 2, 3, ... if and only if nothing was sent after one. */
  lemma DeliveredNumbersIff(m: Metric, turns: seq<Turn>)
    ensures Delivered(m, turns) == Committed(m, turns) <==> Ahead(m, turns) == 0
    ensures Running(Delivered(m, turns)) <==> SilentAfterRaise(m, turns)
  {
    AheadIsExcess(m, turns);
    NumbersRunIff(m, turns);
  }

  lemma {:induction false} NumbersRunIff(m: Metric, turns: seq<Turn>)
    ensures Running(Delivered(m, turns)) <==> SilentAfterRaise(m, turns)
  {
    if turns != [] {
      hide RowAfter, Ahead, EventIn, Sends, Running, Committed;
      var n := |turns| - 1;
      NumbersRunIff(m, turns[..n]);
      SentStep(m, turns[..n], turns[n]);
    }
  }

  lemma SentStep(m: Metric, turns: seq<Turn>, turn: Turn)
    ensures var row := RowAfter(m, turns);
      var more := if Sends(m, row, turn) then [EventIn(m, row, turn).value] else [];
      Running(Delivered(m, turns) + more) <==>
        Running(Delivered(m, turns)) && (Ahead(m, turns) > 0 ==> !Sends(m, row, turn))
  {
    hide RowAfter, Ahead, Delivered, Committed;
    var row := RowAfter(m, turns);
    AheadIsExcess(m, turns);
    CommittedNumbers(m, turns);
    var before := Delivered(m, turns);
    assert before + [] == before;
    if Sends(m, row, turn) {
      var e := EventIn(m, row, turn).value;
      assert e.transition == |Committed(m, turns)| + 1;
      assert (before + [e])[|before|] == e;
      assert Running(before + [e]) ==> Running(before) by {
        assert forall i | 0 <= i < |before| :: (before + [e])[i] == before[i];
      }
    }
  }

  // ----- the row as a function of the trace of levels -----

  function Trailing(levels: seq<Level>, wanted: set<Level>): nat {
    if levels == [] || levels[|levels| - 1] !in wanted then 0 else 1 + Trailing(levels[..|levels| - 1], wanted)
  }

  /** The third healthy poll in a row. */
  predicate Clears(levels: seq<Level>, i: nat) {
    2 <= i < |levels| && levels[i] == Healthy && levels[i - 1] == Healthy && levels[i - 2] == Healthy
  }

  /** The second critical poll in a row. */
  predicate RaisesCritical(levels: seq<Level>, i: nat) {
    1 <= i < |levels| && levels[i] == Critical && levels[i - 1] == Critical
  }

  /** A warning poll after two polls that were not healthy. */
  predicate RaisesWarning(levels: seq<Level>, i: nat) {
    2 <= i < |levels| && levels[i] == Warning && levels[i - 1] != Healthy && levels[i - 2] != Healthy
  }

  predicate Uncleared(levels: seq<Level>, i: nat) {
    forall j | i < j < |levels| :: !Clears(levels, j)
  }

  predicate CriticalStands(levels: seq<Level>) {
    exists i :: 0 <= i < |levels| && RaisesCritical(levels, i) && Uncleared(levels, i)
  }

  predicate WarningStands(levels: seq<Level>) {
    exists i :: 0 <= i < |levels| && RaisesWarning(levels, i) && Uncleared(levels, i)
  }

  function AlertOf(levels: seq<Level>): Level {
    if CriticalStands(levels) then Critical else if WarningStands(levels) then Warning else Healthy
  }

  predicate Summarises(row: Row, levels: seq<Level>) {
    && row.warnings == Trailing(levels, {Warning, Critical})
    && row.criticals == Trailing(levels, {Critical})
    && row.healthies == Trailing(levels, {Healthy})
    && row.alerted == AlertOf(levels)
  }

  lemma {:induction false} TrailingSays(levels: seq<Level>, wanted: set<Level>, k: nat)
    ensures Trailing(levels, wanted) >= k <==>
      k <= |levels| && forall j | |levels| - k <= j < |levels| :: levels[j] in wanted
  {
    if k > 0 && levels != [] {
      var front := levels[..|levels| - 1];
      TrailingSays(front, wanted, k - 1);
      if levels[|levels| - 1] in wanted && k <= |levels| {
        assert forall j | |front| - (k - 1) <= j < |front| :: levels[j] == front[j];
      }
    }
  }

  /** How a new level changes what stands. */
  lemma StandsStep(levels: seq<Level>, level: Level)
    ensures var more := levels + [level]; var n := |levels|;
      && (CriticalStands(more) <==> RaisesCritical(more, n) || (CriticalStands(levels) && !Clears(more, n)))
      && (WarningStands(more) <==> RaisesWarning(more, n) || (WarningStands(levels) && !Clears(more, n)))
  {
    var more, n := levels + [level], |levels|;
    forall i | 0 <= i < n ensures Uncleared(more, i) <==> Uncleared(levels, i) && !Clears(more, n) {
      UnclearedStep(levels, level, i);
    }
    forall i | 0 <= i < n ensures RaisesCritical(more, i) <==> RaisesCritical(levels, i) {}
    forall i | 0 <= i < n ensures RaisesWarning(more, i) <==> RaisesWarning(levels, i) {}
    assert Uncleared(more, n);
    CriticalStep(levels, level);
    WarningStep(levels, level);
  }

  lemma UnclearedStep(levels: seq<Level>, level: Level, i: nat)
    requires i < |levels|
    ensures Uncleared(levels + [level], i) <==> Uncleared(levels, i) && !Clears(levels + [level], |levels|)
  {
    var more := levels + [level];
    forall j | i < j < |levels| ensures Clears(more, j) <==> Clears(levels, j) {}
  }

  lemma CriticalStep(levels: seq<Level>, level: Level)
    ensures var more := levels + [level]; var n := |levels|;
      CriticalStands(more) <==> RaisesCritical(more, n) || (CriticalStands(levels) && !Clears(more, n))
  {
    var more, n := levels + [level], |levels|;
    if CriticalStands(levels) && !Clears(more, n) {
      var i :| 0 <= i < |levels| && RaisesCritical(levels, i) && Uncleared(levels, i);
      UnclearedStep(levels, level, i);
      assert RaisesCritical(more, i);
    }
    if RaisesCritical(more, n) {
      assert Uncleared(more, n);
    }
    if CriticalStands(more) && !RaisesCritical(more, n) {
      var i :| 0 <= i < |more| && RaisesCritical(more, i) && Uncleared(more, i);
      UnclearedStep(levels, level, i);
      assert RaisesCritical(levels, i);
    }
  }

  lemma WarningStep(levels: seq<Level>, level: Level)
    ensures var more := levels + [level]; var n := |levels|;
      WarningStands(more) <==> RaisesWarning(more, n) || (WarningStands(levels) && !Clears(more, n))
  {
    var more, n := levels + [level], |levels|;
    if WarningStands(levels) && !Clears(more, n) {
      var i :| 0 <= i < |levels| && RaisesWarning(levels, i) && Uncleared(levels, i);
      UnclearedStep(levels, level, i);
      assert RaisesWarning(more, i);
    }
    if RaisesWarning(more, n) {
      assert Uncleared(more, n);
    }
    if WarningStands(more) && !RaisesWarning(more, n) {
      var i :| 0 <= i < |more| && RaisesWarning(more, i) && Uncleared(more, i);
      UnclearedStep(levels, level, i);
      assert RaisesWarning(levels, i);
    }
  }

  lemma StreaksStep(m: Metric, prior: Row, value: real, levels: seq<Level>)
    requires Summarises(prior, levels)
    ensures var row, more := NextRow(m, prior, value), levels + [Classify(m, value)];
      && row.warnings == Trailing(more, {Warning, Critical})
      && row.criticals == Trailing(more, {Critical})
      && row.healthies == Trailing(more, {Healthy})
  {
    hide AlertOf, Classify;
    var more := levels + [Classify(m, value)];
    assert more[..|levels|] == levels;
  }

  lemma {:induction false} AlertStep(m: Metric, prior: Row, value: real, levels: seq<Level>)
    requires Summarises(prior, levels)
    ensures NextRow(m, prior, value).alerted == AlertOf(levels + [Classify(m, value)])
  {
    hide CriticalStands, WarningStands, Classify, Trailing;
    var level := Classify(m, value);
    var more := levels + [level];
    StreaksStep(m, prior, value, levels);
    StandsStep(levels, level);
    TrailingSays(more, {Warning, Critical}, 3);
    TrailingSays(more, {Critical}, 2);
    TrailingSays(more, {Healthy}, 3);
  }

  lemma SummaryStep(m: Metric, prior: Row, value: real, levels: seq<Level>)
    requires Summarises(prior, levels)
    ensures Summarises(NextRow(m, prior, value), levels + [Classify(m, value)])
  {
    hide AlertOf, Classify, Trailing, NextRow;
    StreaksStep(m, prior, value, levels);
    AlertStep(m, prior, value, levels);
  }

  /** The persisted row is determined by the unbounded trace of kept polls: its streaks are the
      runs the trace ends with, and its alert is critical (or warning) exactly when a second
      critical in a row (a third bad poll that is a warning) occurred after the last third
      healthy poll in a row. */
  lemma {:induction false} RowSummarisesTrace(m: Metric, turns: seq<Turn>)
    ensures Summarises(Prior(RowAfter(m, turns)), Levels(m, turns))
  {
    if turns != [] {
      hide Summarises, NextRow, Classify, Planned;
      var n := |turns| - 1;
      RowSummarisesTrace(m, turns[..n]);
      if !Undone(m, RowAfter(m, turns[..n]), turns[n]) {
        SummaryStep(m, Prior(RowAfter(m, turns[..n])), turns[n].value, Levels(m, turns[..n]));
      } else {
        assert Levels(m, turns) == Levels(m, turns[..n]);
      }
    } else {
      assert !CriticalStands([]) && !WarningStands([]);
    }
  }

  // ----- the language of committed events -----

  /** One full episode of a metric. */
  datatype Episode = Warned | WarnedThenCritical | WentCritical

  function Spell(e: Episode): seq<Kind> {
    match e
    case Warned => [WarningEvent, RecoveredEvent]
    case WarnedThenCritical => [WarningEvent, CriticalEvent, RecoveredEvent]
    case WentCritical => [CriticalEvent, RecoveredEvent]
  }

  function SpellAll(es: seq<Episode>): seq<Kind> {
    if es == [] then [] else SpellAll(es[..|es| - 1]) + Spell(es[|es| - 1])
  }

  function KindsOf(events: seq<Event>): (kinds: seq<Kind>)
    ensures |kinds| == |events| && forall i | 0 <= i < |events| :: kinds[i] == events[i].kind
  {
    if events == [] then [] else KindsOf(events[..|events| - 1]) + [events[|events| - 1].kind]
  }

  /** An episode that has not recovered yet, for each alert level. */
  predicate Open(alerted: Level, tail: seq<Kind>) {
    match alerted
    case Healthy => tail == []
    case Warning => tail == [WarningEvent]
    case Critical => tail == [CriticalEvent] || tail == [WarningEvent, CriticalEvent]
  }

  /** The committed events are full episodes ((warning critical? | critical) recovered)*, then
      the beginning of one, which matches the alert level of the row. */
  lemma {:induction false} EventsFormEpisodes(m: Metric, turns: seq<Turn>) returns (es: seq<Episode>, tail: seq<Kind>)
    ensures KindsOf(Committed(m, turns)) == SpellAll(es) + tail
    ensures Open(Prior(RowAfter(m, turns)).alerted, tail)
  {
    es, tail := [], [];
    if turns != [] {
      hide Planned, NextRow, KindsOf, SpellAll, Open;
      var n := |turns| - 1;
      es, tail := EventsFormEpisodes(m, turns[..n]);
      var row := RowAfter(m, turns[..n]);
      var event := EventIn(m, row, turns[n]);
      AlertFollowsEvent(m, Prior(row), turns[n].value);
      if event.Some? && !Undone(m, row, turns[n]) {
        KindsMore(Committed(m, turns[..n]), event.value);
        es, tail := EpisodeStep(es, tail, Prior(row).alerted, event.value.kind);
      } else {
        assert Committed(m, turns) == Committed(m, turns[..n]);
      }
    }
  }

  lemma KindsMore(events: seq<Event>, e: Event)
    ensures KindsOf(events + [e]) == KindsOf(events) + [e.kind]
  {
    assert (events + [e])[..|events|] == events;
  }

  function LevelOf(kind: Kind): Level {
    match kind
    case CriticalEvent => Critical
    case WarningEvent => Warning
    case RecoveredEvent => Healthy
  }

  /** What an event may follow. */
  predicate Follows(kind: Kind, alerted: Level) {
    match kind
    case CriticalEvent => alerted != Critical
    case WarningEvent => alerted == Healthy
    case RecoveredEvent => alerted != Healthy
  }

  lemma AlertFollowsEvent(m: Metric, prior: Row, value: real)
    ensures match Planned(m, prior, value)
      case None => NextRow(m, prior, value).alerted == prior.alerted
      case Some(e) => Follows(e.kind, prior.alerted) && NextRow(m, prior, value).alerted == LevelOf(e.kind)
  {
    hide Classify;
  }

  lemma EpisodeStep(es: seq<Episode>, tail: seq<Kind>, alerted: Level, kind: Kind)
      returns (more: seq<Episode>, rest: seq<Kind>)
    requires Open(alerted, tail)
    requires Follows(kind, alerted)
    ensures SpellAll(es) + tail + [kind] == SpellAll(more) + rest
    ensures Open(LevelOf(kind), rest)
  {
    if kind == RecoveredEvent {
      var e :=
        if tail == [WarningEvent] then Warned
        else if tail == [CriticalEvent] then WentCritical
        else WarnedThenCritical;
      more, rest := es + [e], [];
      assert more[..|es|] == es;
      assert tail + [kind] == Spell(e);
      assert SpellAll(es) + tail + [kind] == SpellAll(es) + (tail + [kind]);
    } else {
      more, rest := es, tail + [kind];
    }
  }
}
