/** What the external watch holds to be the case, and announces, in the words of its observations:
    statuses, seconds since the last healthy one and seconds until the certificate expires. */
module ExternalClaims {
  import opened Prelude
  import opened ExternalWatch

  /** Both endpoints answered as expected. */
  predicate Up(c: Config, o: Observation) {
    !o.transportError && o.health == Some(c.expectedStatus) && o.ready == Some(c.expectedStatus)
  }

  predicate LastUp(c: Config, obs: seq<Observation>, i: nat) {
    i < |obs| && Up(c, obs[i]) && forall j | i < j < |obs| :: !Up(c, obs[j])
  }

  /** Too long since the last healthy observation, or since the first of all when none was. */
  predicate Silent(c: Config, obs: seq<Observation>)
    requires obs != []
  {
    var now := obs[|obs| - 1].at;
    || (exists i | 0 <= i < |obs| && LastUp(c, obs, i) :: now - obs[i].at > c.staleAfter)
    || ((forall i | 0 <= i < |obs| :: !Up(c, obs[i])) && now - obs[0].at > c.staleAfter)
  }

  /** The certificate was read and expires in at most so many seconds. */
  predicate ExpiresWithin(o: Observation, seconds: int) {
    match o.tlsNotAfter
    case None => false
    case Some(end) => end - o.at <= seconds
  }

  lemma {:induction false} LastHealthyIs(c: Config, obs: seq<Observation>)
    ensures LastHealthy(c, obs) == None <==> forall i | 0 <= i < |obs| :: !Up(c, obs[i])
    ensures LastHealthy(c, obs).Some? ==>
      exists i | 0 <= i < |obs| && LastUp(c, obs, i) :: LastHealthy(c, obs) == Some(obs[i].at)
  {
    if obs != [] {
      var n := |obs| - 1;
      LastHealthyIs(c, obs[..n]);
      if Up(c, obs[n]) {
        assert LastUp(c, obs, n);
      } else if LastHealthy(c, obs[..n]).Some? {
        var i :| 0 <= i < n && LastUp(c, obs[..n], i) && LastHealthy(c, obs[..n]) == Some(obs[..n][i].at);
        assert LastUp(c, obs, i);
      }
    }
  }

  lemma OneLastUp(c: Config, obs: seq<Observation>, i: nat, j: nat)
    requires LastUp(c, obs, i) && LastUp(c, obs, j)
    ensures i == j
  {
  }

  /** The heartbeat is measured from the last healthy observation, this one included. */
  lemma SilentIs(c: Config, obs: seq<Observation>)
    requires obs != []
    ensures var n := |obs| - 1;
      obs[n].at - Heartbeat(c, After(c, obs[..n]), obs[n]) > c.staleAfter <==> Silent(c, obs)
  {
    var n := |obs| - 1;
    Bookkeeping(c, obs[..n]);
    LastHealthyIs(c, obs);
    assert n > 0 ==> obs[..n][0] == obs[0];
    forall i, j | LastUp(c, obs, i) && LastUp(c, obs, j) ensures i == j { OneLastUp(c, obs, i, j); }
    hide After, LastUp, Up;
    HeartbeatIs(c, obs);
  }

  lemma HeartbeatIs(c: Config, obs: seq<Observation>)
    requires obs != []
    ensures var n := |obs| - 1;
      Heartbeat(c, After(c, obs[..n]), obs[n]) ==
        if LastHealthy(c, obs).Some? then LastHealthy(c, obs).value else obs[0].at
  {
    var n := |obs| - 1;
    Bookkeeping(c, obs[..n]);
    hide After;
  }

  /** Which conditions are active after any run. */
  lemma ConditionsInRun(c: Config, obs: seq<Observation>)
    requires obs != []
    ensures var active, o := After(c, obs).active, obs[|obs| - 1];
      && (TargetUnreachable in active <==> o.transportError || o.health == None)
      && (TargetDegraded in active <==> !o.transportError && o.health.Some? && !Up(c, o))
      && (HeartbeatStale in active <==> Silent(c, obs))
      && (TlsCritical in active <==> ExpiresWithin(o, c.tlsCritical))
      && (TlsWarning in active <==> ExpiresWithin(o, c.tlsWarning) && !ExpiresWithin(o, c.tlsCritical))
  {
    var n := |obs| - 1;
    SilentIs(c, obs);
    forall condition ensures condition in CONDITIONS { EveryCondition(condition); }
    assert forall condition ::
      condition in After(c, obs).active <==> Holds(c, After(c, obs[..n]), obs[n], condition);
    hide After, Heartbeat, Silent;
  }

  /** The certificate is near its end by one bound or the other. */
  predicate NearExpiry(c: Config, o: Observation) {
    ExpiresWithin(o, c.tlsCritical) || ExpiresWithin(o, c.tlsWarning)
  }

  /** A recovered certificate is announced exactly when it was near its end at the last observation
      and is not now. */
  lemma TlsRecoveredInRun(c: Config, obs: seq<Observation>, o: Observation)
    ensures TlsRecovered(o.at) in Events(c, After(c, obs), o) <==>
      obs != [] && NearExpiry(c, obs[|obs| - 1]) && !NearExpiry(c, o)
  {
    var s, more := After(c, obs), obs + [o];
    assert more[..|obs|] == obs;
    ConditionsInRun(c, more);
    if obs != [] { ConditionsInRun(c, obs); }
    var active := Conditions(c, s, o);
    assert After(c, more).active == active;
    OpenedAre(active - s.active, o.at, |CONDITIONS|);
    hide Silent, After, Conditions, ExpiresWithin, OpenedEvents;
    assert (s.active - active) * TLS != {} && active * TLS == {} <==>
      (TlsCritical in s.active || TlsWarning in s.active) && TlsCritical !in active && TlsWarning !in active by {
      if TlsCritical in s.active && TlsCritical !in active { assert TlsCritical in (s.active - active) * TLS; }
      if TlsWarning in s.active && TlsWarning !in active { assert TlsWarning in (s.active - active) * TLS; }
      if TlsCritical in active { assert TlsCritical in active * TLS; }
      if TlsWarning in active { assert TlsWarning in active * TLS; }
    }
  }

  /** A recovery names every condition of the outage that it ends. */
  lemma RecoveryClears(c: Config, s: State, o: Observation)
    ensures forall e | e in Events(c, s, o) && e.TargetRecovered? ::
      e.cleared == s.active * {HeartbeatStale, TargetDegraded, TargetUnreachable}
  {
    var active := Conditions(c, s, o);
    OpenedAre(active - s.active, o.at, |CONDITIONS|);
    hide Conditions, OpenedEvents;
    if !Outage(active) {
      assert forall x | x in active && x in OUTAGE :: x in active * OUTAGE;
      assert (s.active - active) * OUTAGE == s.active * OUTAGE;
    }
  }

  /** The order of the names of the conditions. */
  function NameRank(condition: Condition): nat {
    match condition
    case HeartbeatStale => 0
    case TargetDegraded => 1
    case TargetUnreachable => 2
    case TlsCritical => 3
    case TlsWarning => 4
  }

  predicate Ascends(events: seq<Event>, bound: nat) {
    && (forall i | 0 <= i < |events| :: events[i].Opened? && NameRank(events[i].condition) < bound)
    && (forall i, j | 0 <= i < j < |events| && events[i].Opened? && events[j].Opened? ::
          NameRank(events[i].condition) < NameRank(events[j].condition))
  }

  lemma {:induction false} OpenedAscend(rising: set<Condition>, at: int, n: nat)
    requires n <= |CONDITIONS|
    ensures Ascends(OpenedEvents(rising, at, n), n)
  {
    if n > 0 {
      OpenedAscend(rising, at, n - 1);
      AscendsMore(OpenedEvents(rising, at, n - 1), CONDITIONS[n - 1], at, n);
      hide Ascends;
    }
  }

  lemma AscendsMore(events: seq<Event>, condition: Condition, at: int, n: nat)
    requires 0 < n <= |CONDITIONS| && condition == CONDITIONS[n - 1] && Ascends(events, n - 1)
    ensures Ascends(events, n) && Ascends(events + [Opened(condition, at)], n) && Ascends(events + [], n)
  {
    RankAt(n - 1);
    assert events + [] == events;
  }

  lemma RankAt(k: nat)
    requires k < |CONDITIONS|
    ensures NameRank(CONDITIONS[k]) == k
  {
  }

  /** Openings come first, in the order of their names, then recoveries. */
  lemma EventsInOrder(c: Config, s: State, o: Observation, i: nat, j: nat)
    requires i < j < |Events(c, s, o)| && Events(c, s, o)[j].Opened?
    ensures Events(c, s, o)[i].Opened?
    ensures NameRank(Events(c, s, o)[i].condition) < NameRank(Events(c, s, o)[j].condition)
  {
    var rising := OpenedEvents(Conditions(c, s, o) - s.active, o.at, |CONDITIONS|);
    OpenedAscend(Conditions(c, s, o) - s.active, o.at, |CONDITIONS|);
    hide Conditions, OpenedEvents, NameRank;
    assert forall k | 0 <= k < |rising| :: Events(c, s, o)[k] == rising[k];
    assert forall k | |rising| <= k < |Events(c, s, o)| :: !Events(c, s, o)[k].Opened?;
  }
}
