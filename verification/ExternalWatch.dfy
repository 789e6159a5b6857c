/** scripts/monitoring/fr22_external_watch.py: one observation at a time, the conditions it
    opens and clears, and the outage interval. */
module ExternalWatch {
  import opened Prelude

  datatype Config = Config(expectedStatus: int, staleAfter: int, tlsWarning: int, tlsCritical: int)

  datatype Observation = Observation(at: int, health: Option<int>, ready: Option<int>,
                                     tlsNotAfter: Option<int>, transportError: bool)

  datatype Condition = HeartbeatStale | TargetDegraded | TargetUnreachable | TlsCritical | TlsWarning

  datatype State = State(first: Option<int>, last: Option<int>, lastSuccess: Option<int>,
                         outageStarted: Option<int>, active: set<Condition>)

  datatype Event =
    | Opened(condition: Condition, at: int)
    | TargetRecovered(at: int, duration: Option<int>, cleared: set<Condition>)
    | TlsRecovered(at: int)

  const START := State(None, None, None, None, {})
  const OUTAGE := {HeartbeatStale, TargetDegraded, TargetUnreachable}
  const TLS := {TlsCritical, TlsWarning}

  /** In the order of their names. */
  const CONDITIONS := [HeartbeatStale, TargetDegraded, TargetUnreachable, TlsCritical, TlsWarning]

  // ----- one observation -----

  predicate FullyHealthy(c: Config, o: Observation) {
    !o.transportError && o.health == Some(c.expectedStatus) && o.ready == Some(c.expectedStatus)
  }

  predicate InOrder(s: State, o: Observation) {
    o.at >= 0 && (s.last.Some? ==> o.at >= s.last.value)
  }

  function FirstOf(s: State, o: Observation): int { if s.first.Some? then s.first.value else o.at }

  function SuccessOf(c: Config, s: State, o: Observation): Option<int> {
    if FullyHealthy(c, o) then Some(o.at) else s.lastSuccess
  }

  function Heartbeat(c: Config, s: State, o: Observation): int {
    if SuccessOf(c, s, o).Some? then SuccessOf(c, s, o).value else FirstOf(s, o)
  }

  function Remaining(o: Observation): int
    requires o.tlsNotAfter.Some?
  {
    o.tlsNotAfter.value - o.at
  }

  predicate Holds(c: Config, s: State, o: Observation, condition: Condition) {
    match condition
    case TargetUnreachable => o.transportError || o.health == None
    case TargetDegraded => !(o.transportError || o.health == None) && !FullyHealthy(c, o)
    case HeartbeatStale => o.at - Heartbeat(c, s, o) > c.staleAfter
    case TlsCritical => o.tlsNotAfter.Some? && Remaining(o) <= c.tlsCritical
    case TlsWarning => o.tlsNotAfter.Some? && c.tlsCritical < Remaining(o) <= c.tlsWarning
  }

  function Conditions(c: Config, s: State, o: Observation): set<Condition> {
    set condition | condition in CONDITIONS && Holds(c, s, o, condition)
  }

  predicate Outage(active: set<Condition>) { active * OUTAGE != {} }

  function StartedAt(s: State, active: set<Condition>, at: int): Option<int> {
    if !Outage(active) then None else if Outage(s.active) then s.outageStarted else Some(at)
  }

  function Next(c: Config, s: State, o: Observation): State {
    var active := Conditions(c, s, o);
    State(Some(FirstOf(s, o)), Some(o.at), SuccessOf(c, s, o), StartedAt(s, active, o.at), active)
  }

  function OpenedEvents(rising: set<Condition>, at: int, n: nat): seq<Event>
    requires n <= |CONDITIONS|
  {
    if n == 0 then []
    else OpenedEvents(rising, at, n - 1) + if CONDITIONS[n - 1] in rising then [Opened(CONDITIONS[n - 1], at)] else []
  }

  function Duration(s: State, o: Observation): Option<int> {
    if s.outageStarted.Some? then Some(o.at - s.outageStarted.value) else None
  }

  function Events(c: Config, s: State, o: Observation): seq<Event> {
    var active := Conditions(c, s, o);
    OpenedEvents(active - s.active, o.at, |CONDITIONS|) +
    (if Outage(s.active) && !Outage(active)
     then [TargetRecovered(o.at, Duration(s, o), (s.active - active) * OUTAGE)]
     else []) +
    (if (s.active - active) * TLS != {} && active * TLS == {} then [TlsRecovered(o.at)] else [])
  }

  /** evaluate: refused when the time is negative or moves backwards. */
  method Evaluate(c: Config, s: State, o: Observation) returns (r: Result<(State, seq<Event>)>)
    ensures r.Ok? <==> InOrder(s, o)
    ensures r.Ok? ==> r.value == (Next(c, s, o), Events(c, s, o))
  {
    if o.at < 0 {
      return Err("observed_at must be non-negative");
    }
    if s.last.Some? && o.at < s.last.value {
      return Err("observation time moved backwards");
    }
    hide Conditions, OpenedEvents;
    var conditions := CollectConditions(c, s, o);
    var cleared, rising := s.active - conditions, conditions - s.active;
    var outageStarted := s.outageStarted;
    if Outage(conditions) && !Outage(s.active) {
      outageStarted := Some(o.at);
    } else if !Outage(conditions) {
      outageStarted := None;
    }
    var events := OpenEach(rising, o.at);
    if Outage(s.active) && !Outage(conditions) {
      var duration := if s.outageStarted.Some? then Some(o.at - s.outageStarted.value) else None;
      events := events + [TargetRecovered(o.at, duration, cleared * OUTAGE)];
    }
    if cleared * TLS != {} && conditions * TLS == {} {
      events := events + [TlsRecovered(o.at)];
    }
    assert events == Events(c, s, o);
    return Ok((State(Some(FirstOf(s, o)), Some(o.at), SuccessOf(c, s, o), outageStarted, conditions), events));
  }

  method OpenEach(rising: set<Condition>, at: int) returns (events: seq<Event>)
    ensures events == OpenedEvents(rising, at, |CONDITIONS|)
  {
    var n := 0;
    events := [];
    while n < |CONDITIONS|
      invariant 0 <= n <= |CONDITIONS| && events == OpenedEvents(rising, at, n)
    {
      if CONDITIONS[n] in rising {
        events := events + [Opened(CONDITIONS[n], at)];
      }
      n := n + 1;
    }
  }

  method CollectConditions(c: Config, s: State, o: Observation) returns (conditions: set<Condition>)
    ensures conditions == Conditions(c, s, o)
  {
    hide Conditions;
    var transportOk := !o.transportError;
    var healthOk := transportOk && o.health == Some(c.expectedStatus);
    var readyOk := transportOk && o.ready == Some(c.expectedStatus);
    var lastSuccess := if healthOk && readyOk then Some(o.at) else s.lastSuccess;
    conditions := {};
    if !transportOk || o.health == None {
      conditions := conditions + {TargetUnreachable};
    } else if !healthOk || !readyOk {
      conditions := conditions + {TargetDegraded};
    }
    var reference := if lastSuccess.Some? then lastSuccess.value else FirstOf(s, o);
    if o.at - reference > c.staleAfter {
      conditions := conditions + {HeartbeatStale};
    }
    if o.tlsNotAfter.Some? {
      if o.tlsNotAfter.value - o.at <= c.tlsCritical {
        conditions := conditions + {TlsCritical};
      } else if o.tlsNotAfter.value - o.at <= c.tlsWarning {
        conditions := conditions + {TlsWarning};
      }
    }
    CollectedAll(c, s, o, conditions);
  }

  lemma CollectedAll(c: Config, s: State, o: Observation, conditions: set<Condition>)
    requires TargetUnreachable in conditions <==> Holds(c, s, o, TargetUnreachable)
    requires TargetDegraded in conditions <==> Holds(c, s, o, TargetDegraded)
    requires HeartbeatStale in conditions <==> Holds(c, s, o, HeartbeatStale)
    requires TlsCritical in conditions <==> Holds(c, s, o, TlsCritical)
    requires TlsWarning in conditions <==> Holds(c, s, o, TlsWarning)
    ensures conditions == Conditions(c, s, o)
  {
    hide Holds;
    forall condition ensures condition in conditions <==> condition in Conditions(c, s, o) {
      EveryCondition(condition);
    }
  }

  // ----- a whole run from the initial state -----

  function After(c: Config, obs: seq<Observation>): State {
    if obs == [] then START else Next(c, After(c, obs[..|obs| - 1]), obs[|obs| - 1])
  }

  /** Every observation of the run is accepted. */
  predicate Accepted(obs: seq<Observation>) {
    && (forall i | 0 <= i < |obs| :: obs[i].at >= 0)
    && (forall i, j | 0 <= i < j < |obs| :: obs[i].at <= obs[j].at)
  }

  /** The first observation of the run of unhealthy ones that this run ends with. */
  function RunStart(c: Config, obs: seq<Observation>): (i: nat)
    requires obs != [] && !FullyHealthy(c, obs[|obs| - 1])
    ensures i < |obs| && (forall j | i <= j < |obs| :: !FullyHealthy(c, obs[j]))
    ensures i > 0 ==> FullyHealthy(c, obs[i - 1])
  {
    var n := |obs| - 1;
    if n > 0 && !FullyHealthy(c, obs[n - 1]) then RunStart(c, obs[..n]) else n
  }

  /** The time a heartbeat is measured from: the last healthy observation, or the first of all. */
  function LastHealthy(c: Config, obs: seq<Observation>): Option<int> {
    if obs == [] then None
    else if FullyHealthy(c, obs[|obs| - 1]) then Some(obs[|obs| - 1].at)
    else LastHealthy(c, obs[..|obs| - 1])
  }

  lemma {:induction false} Bookkeeping(c: Config, obs: seq<Observation>)
    ensures After(c, obs).lastSuccess == LastHealthy(c, obs)
    ensures obs != [] ==> After(c, obs).first == Some(obs[0].at) && After(c, obs).last == Some(obs[|obs| - 1].at)
  {
    if |obs| > 1 {
      Bookkeeping(c, obs[..|obs| - 1]);
    } else if |obs| == 1 {
      assert obs[..0] == [];
    }
  }

  /** Accepted runs are exactly those evaluate never refuses. */
  lemma {:induction false} AcceptedIffNeverRefused(c: Config, obs: seq<Observation>)
    ensures Accepted(obs) <==> forall i | 0 <= i < |obs| :: InOrder(After(c, obs[..i]), obs[i])
  {
    forall i | 0 <= i <= |obs| ensures i > 0 ==> After(c, obs[..i]).last == Some(obs[i - 1].at) {
      Bookkeeping(c, obs[..i]);
    }
    assert obs[..0] == [];
    if forall i | 0 <= i < |obs| :: InOrder(After(c, obs[..i]), obs[i]) {
      StepsAscend(obs);
    }
  }

  lemma {:induction false} StepsAscend(obs: seq<Observation>)
    requires forall i | 0 < i < |obs| :: obs[i - 1].at <= obs[i].at
    ensures forall i, j | 0 <= i < j < |obs| :: obs[i].at <= obs[j].at
  {
    if obs != [] {
      var n := |obs| - 1;
      StepsAscend(obs[..n]);
      forall i, j | 0 <= i < j < |obs| ensures obs[i].at <= obs[j].at {
        if j == n {
          assert obs[j - 1].at <= obs[j].at;
          if i < j - 1 { assert obs[..n][i].at <= obs[..n][j - 1].at; }
        } else {
          assert obs[..n][i].at <= obs[..n][j].at;
        }
      }
    }
  }

  lemma HealthyHasNoOutage(c: Config, s: State, o: Observation)
    requires c.staleAfter >= 0
    ensures Outage(Conditions(c, s, o)) <==> !FullyHealthy(c, o)
  {
    var active := Conditions(c, s, o);
    if FullyHealthy(c, o) {
      assert active * OUTAGE == {};
    } else {
      assert (if o.transportError || o.health == None then TargetUnreachable else TargetDegraded) in active * OUTAGE;
    }
  }

  /** An outage is open exactly while the latest observation is not fully healthy, and its start
      is the time of the first observation of the current unhealthy run. */
  lemma {:induction false} OutageIsTheUnhealthyRun(c: Config, obs: seq<Observation>)
    requires c.staleAfter >= 0
    ensures Outage(After(c, obs).active) <==> obs != [] && !FullyHealthy(c, obs[|obs| - 1])
    ensures After(c, obs).outageStarted ==
      if obs != [] && !FullyHealthy(c, obs[|obs| - 1]) then Some(obs[RunStart(c, obs)].at) else None
  {
    if obs != [] {
      hide Conditions;
      var n := |obs| - 1;
      OutageIsTheUnhealthyRun(c, obs[..n]);
      HealthyHasNoOutage(c, After(c, obs[..n]), obs[n]);
    }
  }

  /** A recovery is announced exactly when a healthy observation follows an unhealthy one, and
      it carries the true length of the run that has just ended. */
  lemma RecoveryEndsARun(c: Config, obs: seq<Observation>, o: Observation)
    requires c.staleAfter >= 0
    ensures (exists e :: e in Events(c, After(c, obs), o) && e.TargetRecovered?)
      <==> obs != [] && !FullyHealthy(c, obs[|obs| - 1]) && FullyHealthy(c, o)
    ensures forall e | e in Events(c, After(c, obs), o) && e.TargetRecovered? ::
      obs != [] && !FullyHealthy(c, obs[|obs| - 1]) && e.duration == Some(o.at - obs[RunStart(c, obs)].at)
    ensures forall i, j | 0 <= i < j < |Events(c, After(c, obs), o)| ::
      !(Events(c, After(c, obs), o)[i].TargetRecovered? && Events(c, After(c, obs), o)[j].TargetRecovered?)
  {
    OutageIsTheUnhealthyRun(c, obs);
    HealthyHasNoOutage(c, After(c, obs), o);
    EventParts(c, After(c, obs), o);
  }

  lemma {:induction false} OpenedAre(rising: set<Condition>, at: int, n: nat)
    requires n <= |CONDITIONS|
    ensures forall i | 0 <= i < |OpenedEvents(rising, at, n)| :: OpenedEvents(rising, at, n)[i].Opened?
    ensures forall e ::
      e in OpenedEvents(rising, at, n) <==>
        e.Opened? && e.at == at && e.condition in rising && e.condition in CONDITIONS[..n]
    ensures forall i, j | 0 <= i < j < |OpenedEvents(rising, at, n)| ::
      OpenedEvents(rising, at, n)[i] != OpenedEvents(rising, at, n)[j]
  {
    if n > 0 {
      OpenedAre(rising, at, n - 1);
      assert CONDITIONS[..n] == CONDITIONS[..n - 1] + [CONDITIONS[n - 1]];
      assert CONDITIONS[n - 1] !in CONDITIONS[..n - 1];
    }
  }

  lemma EventParts(c: Config, s: State, o: Observation)
    ensures var events, active := Events(c, s, o), Conditions(c, s, o);
      && (forall e | e in events && e.TargetRecovered? ::
            Outage(s.active) && !Outage(active) && s.outageStarted.Some? ==>
              e.duration == Some(o.at - s.outageStarted.value))
      && ((exists e :: e in events && e.TargetRecovered?) <==> Outage(s.active) && !Outage(active))
      && (forall i, j | 0 <= i < j < |events| :: !(events[i].TargetRecovered? && events[j].TargetRecovered?))
  {
    hide Conditions;
    var active := Conditions(c, s, o);
    var rising := OpenedEvents(active - s.active, o.at, |CONDITIONS|);
    OpenedAre(active - s.active, o.at, |CONDITIONS|);
    var events := Events(c, s, o);
    assert forall i | 0 <= i < |rising| :: events[i] == rising[i];
    if Outage(s.active) && !Outage(active) {
      assert events[|rising|].TargetRecovered?;
    }
  }

  /** A condition is announced exactly once when it becomes active and not while it stays active. */
  lemma EachIntervalOpensOnce(c: Config, obs: seq<Observation>, o: Observation, condition: Condition)
    ensures Opened(condition, o.at) in Events(c, After(c, obs), o)
      <==> condition in After(c, obs + [o]).active && condition !in After(c, obs).active
    ensures forall i, j | 0 <= i < j < |Events(c, After(c, obs), o)| ::
      Events(c, After(c, obs), o)[i] != Events(c, After(c, obs), o)[j]
    ensures forall e | e in Events(c, After(c, obs), o) :: e.at == o.at
  {
    assert (obs + [o])[..|obs|] == obs;
    var s := After(c, obs);
    OnceEach(c, s, o);
    EveryCondition(condition);
  }

  lemma EveryCondition(condition: Condition)
    ensures condition in CONDITIONS
  {
    match condition
    case HeartbeatStale => assert CONDITIONS[0] == condition;
    case TargetDegraded => assert CONDITIONS[1] == condition;
    case TargetUnreachable => assert CONDITIONS[2] == condition;
    case TlsCritical => assert CONDITIONS[3] == condition;
    case TlsWarning => assert CONDITIONS[4] == condition;
  }

  lemma OnceEach(c: Config, s: State, o: Observation)
    ensures var events, active := Events(c, s, o), Conditions(c, s, o);
      && (forall i, j | 0 <= i < j < |events| :: events[i] != events[j])
      && (forall e | e in events :: e.at == o.at)
      && (forall condition | condition in CONDITIONS ::
          Opened(condition, o.at) in events <==> condition in active - s.active)
  {
    hide Conditions;
    var active := Conditions(c, s, o);
    OpenedAre(active - s.active, o.at, |CONDITIONS|);
    assert CONDITIONS[..|CONDITIONS|] == CONDITIONS;
  }

  /** The state shows an outage exactly in an unhealthy run, and its start is that run's first time. */
  predicate ShowsTheRun(c: Config, obs: seq<Observation>) {
    var unhealthy := obs != [] && !FullyHealthy(c, obs[|obs| - 1]);
    && (Outage(After(c, obs).active) <==> unhealthy)
    && After(c, obs).outageStarted == if unhealthy then Some(obs[RunStart(c, obs)].at) else None
  }

  /** The outage interval, its extent and its start, is right in every run if and only if the staleness
      bound is not negative: with a negative bound one healthy observation already opens an outage. */
  lemma OutageIsRightIffBoundIsNotNegative(c: Config)
    ensures c.staleAfter >= 0 <==> forall obs: seq<Observation> | Accepted(obs) :: ShowsTheRun(c, obs)
  {
    if c.staleAfter >= 0 {
      forall obs: seq<Observation> | Accepted(obs) ensures ShowsTheRun(c, obs) {
        OutageIsTheUnhealthyRun(c, obs);
      }
    } else {
      var o := Observation(0, Some(c.expectedStatus), Some(c.expectedStatus), None, false);
      var obs := [o];
      assert obs[..0] == [];
      assert HeartbeatStale in After(c, obs).active * OUTAGE;
      assert Accepted(obs) && !ShowsTheRun(c, obs);
    }
  }
}
