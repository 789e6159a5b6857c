/** When the capacity guard raises what, in terms of the values it measured and the thresholds. */
module CapacityClaims {
  import opened Prelude
  import opened CapacityGuard

  /** At the warning threshold of its metric or above. */
  predicate Bad(m: Metric, value: real) {
    match m
    case Cpu => value >= 70.0
    case Memory => value >= 75.0
    case Disk => value >= 70.0
    case DockerDisk => value >= 70.0
    case Load => value >= 75.0
    case Network => value >= 65.0
    case Swap => value >= 20.0
  }

  /** At the critical threshold of its metric or above. */
  predicate Grave(m: Metric, value: real) {
    match m
    case Cpu => value >= 85.0
    case Memory => value >= 85.0
    case Disk => value >= 85.0
    case DockerDisk => value >= 85.0
    case Load => value >= 100.0
    case Network => value >= 80.0
    case Swap => value >= 50.0
  }

  lemma LevelsAre(m: Metric, value: real)
    ensures Classify(m, value) == Critical <==> Grave(m, value)
    ensures Classify(m, value) == Healthy <==> !Bad(m, value)
    ensures Grave(m, value) ==> Bad(m, value)
  {
  }

  /** The values of the polls whose row was kept. */
  function Kept(m: Metric, turns: seq<Turn>): seq<real> {
    if turns == [] then []
    else
      var n := |turns| - 1;
      Kept(m, turns[..n]) + if Undone(m, RowAfter(m, turns[..n]), turns[n]) then [] else [turns[n].value]
  }

  lemma {:induction false} LevelsOfKept(m: Metric, turns: seq<Turn>)
    ensures |Levels(m, turns)| == |Kept(m, turns)|
    ensures forall i | 0 <= i < |Kept(m, turns)| :: Levels(m, turns)[i] == Classify(m, Kept(m, turns)[i])
  {
    hide Classify, Undone, RowAfter;
    if turns != [] { LevelsOfKept(m, turns[..|turns| - 1]); }
  }

  /** Values i - 1 and i, the second and the first of two, are at the critical threshold. */
  predicate TwoGrave(m: Metric, v: seq<real>, i: nat) {
    1 <= i < |v| && Grave(m, v[i]) && Grave(m, v[i - 1])
  }

  /** The third bad value in a row, which is not critical itself. */
  predicate ThreeBad(m: Metric, v: seq<real>, i: nat) {
    2 <= i < |v| && Bad(m, v[i]) && !Grave(m, v[i]) && Bad(m, v[i - 1]) && Bad(m, v[i - 2])
  }

  predicate ThreeGood(m: Metric, v: seq<real>, i: nat) {
    2 <= i < |v| && !Bad(m, v[i]) && !Bad(m, v[i - 1]) && !Bad(m, v[i - 2])
  }

  predicate GoodSince(m: Metric, v: seq<real>, i: nat) {
    exists j :: i < j < |v| && ThreeGood(m, v, j)
  }

  /** Two critical values in a row, and never three good ones since. */
  predicate GraveStands(m: Metric, v: seq<real>) {
    exists i :: 0 <= i < |v| && TwoGrave(m, v, i) && !GoodSince(m, v, i)
  }

  predicate BadStands(m: Metric, v: seq<real>) {
    exists i :: 0 <= i < |v| && ThreeBad(m, v, i) && !GoodSince(m, v, i)
  }

  lemma StandsIs(m: Metric, levels: seq<Level>, v: seq<real>)
    requires |levels| == |v| && forall i | 0 <= i < |v| :: levels[i] == Classify(m, v[i])
    ensures CriticalStands(levels) <==> GraveStands(m, v)
    ensures WarningStands(levels) <==> BadStands(m, v)
  {
    forall i | 0 <= i < |v|
      ensures RaisesCritical(levels, i) <==> TwoGrave(m, v, i)
      ensures RaisesWarning(levels, i) <==> ThreeBad(m, v, i)
      ensures Clears(levels, i) <==> ThreeGood(m, v, i)
    {
      StepsAre(m, levels, v, i);
    }
    hide Classify, Bad, Grave, RaisesCritical, RaisesWarning, Clears, TwoGrave, ThreeBad, ThreeGood;
    forall i | 0 <= i < |v| ensures Uncleared(levels, i) <==> !GoodSince(m, v, i) {}
  }

  lemma StepsAre(m: Metric, levels: seq<Level>, v: seq<real>, i: nat)
    requires |levels| == |v| && i < |v| && forall i | 0 <= i < |v| :: levels[i] == Classify(m, v[i])
    ensures RaisesCritical(levels, i) <==> TwoGrave(m, v, i)
    ensures RaisesWarning(levels, i) <==> ThreeBad(m, v, i)
    ensures Clears(levels, i) <==> ThreeGood(m, v, i)
  {
    hide Classify, Bad, Grave;
    LevelsAre(m, v[i]);
    if i >= 1 { LevelsAre(m, v[i - 1]); }
    if i >= 2 { LevelsAre(m, v[i - 2]); }
  }

  /** The alert that stands after any run with lost notifications and polls that raised: critical
      from two critical values in a row, otherwise a warning from a third bad value in a row, until
      three good ones in a row. */
  lemma AlertInValues(m: Metric, turns: seq<Turn>)
    ensures var v := Kept(m, turns);
      Prior(RowAfter(m, turns)).alerted ==
        if GraveStands(m, v) then Critical else if BadStands(m, v) then Warning else Healthy
  {
    LevelsOfKept(m, turns);
    RowSummarisesTrace(m, turns);
    StandsIs(m, Levels(m, turns), Kept(m, turns));
    hide Classify, GraveStands, BadStands, CriticalStands, WarningStands, Trailing;
  }

  lemma AnnouncedIs(row: Row, levels: seq<Level>, level: Level)
    requires Summarises(row, levels)
    ensures var more := levels + [level]; var n := |levels|;
      && (Announced(row, level) == Some(CriticalEvent) <==> RaisesCritical(more, n) && row.alerted != Critical)
      && (Announced(row, level) == Some(WarningEvent) <==> RaisesWarning(more, n) && row.alerted == Healthy)
      && (Announced(row, level) == Some(RecoveredEvent) <==> Clears(more, n) && row.alerted != Healthy)
  {
    TrailingSays(levels, {Warning, Critical}, 2);
    TrailingSays(levels, {Critical}, 1);
    TrailingSays(levels, {Healthy}, 2);
    hide Trailing, AlertOf;
  }

  /** What a poll plans for a metric, by the value it measured and those kept before. */
  lemma EventInValues(m: Metric, turns: seq<Turn>, turn: Turn)
    ensures var v := Kept(m, turns); var more := v + [turn.value];
      var alerted := Prior(RowAfter(m, turns)).alerted; var e := EventIn(m, RowAfter(m, turns), turn);
      && (e.Some? && e.value.kind == CriticalEvent <==> TwoGrave(m, more, |v|) && alerted != Critical)
      && (e.Some? && e.value.kind == WarningEvent <==> ThreeBad(m, more, |v|) && alerted == Healthy)
      && (e.Some? && e.value.kind == RecoveredEvent <==> ThreeGood(m, more, |v|) && alerted != Healthy)
  {
    LevelsOfKept(m, turns);
    RowSummarisesTrace(m, turns);
    var levels, v := Levels(m, turns), Kept(m, turns);
    var level := Classify(m, turn.value);
    hide Classify, TwoGrave, ThreeBad, ThreeGood, RaisesCritical, RaisesWarning, Clears, Announced, Summarises;
    hide RowAfter, Levels, Kept;
    AnnouncedIs(Prior(RowAfter(m, turns)), levels, level);
    StepsAre(m, levels + [level], v + [turn.value], |v|);
  }

  /** The event carries the value that was measured and the threshold of its kind. */
  lemma EventCarries(m: Metric, row: Option<Row>, turn: Turn)
    requires EventIn(m, row, turn).Some?
    ensures var e := EventIn(m, row, turn).value;
      && e.metric == m && e.value == turn.value
      && (forall x: real :: x >= e.threshold <==> if e.kind == CriticalEvent then Grave(m, x) else Bad(m, x))
  {
    ThresholdsAre(m);
    hide Classify, Bad, Grave, WarningAt, CriticalAt;
  }

  lemma ThresholdsAre(m: Metric)
    ensures forall x: real :: x >= WarningAt(m) <==> Bad(m, x)
    ensures forall x: real :: x >= CriticalAt(m) <==> Grave(m, x)
  {
  }
}
