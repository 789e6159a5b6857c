/** Which events the runtime watch plans, by what it observed of the component before and now. */
module WatchClaims {
  import opened Prelude
  import opened RuntimeWatch

  /** Observation i found the component missing or unhealthy. */
  predicate BadAt(trace: seq<Option<Seen>>, i: nat)
    requires i < |trace|
  {
    trace[i] == None || !trace[i].value.healthy
  }

  predicate EverHealthy(trace: seq<Option<Seen>>) {
    exists i | 0 <= i < |trace| :: !BadAt(trace, i)
  }

  /** Observation i is the last one that found the container. */
  predicate IsLastSeen(trace: seq<Option<Seen>>, i: nat) {
    i < |trace| && trace[i].Some? && forall j | i < j < |trace| :: trace[j] == None
  }

  /** The same container was seen last, with fewer restarts than now, and the component is expected:
      it was healthy once, or is now. */
  predicate RestartedSince(trace: seq<Option<Seen>>, now: Seen) {
    && (EverHealthy(trace) || now.healthy)
    && (exists i | 0 <= i < |trace| && IsLastSeen(trace, i) ::
          trace[i].value.container == now.container && trace[i].value.restarts < now.restarts)
  }

  /** Exactly the last observation of a component that was healthy before was bad. */
  predicate JustTurnedBad(trace: seq<Option<Seen>>) {
    EverHealthy(trace) && |trace| >= 2 && BadAt(trace, |trace| - 1) && !BadAt(trace, |trace| - 2)
  }

  /** At least the last two observations of a component that was healthy before were bad. */
  predicate StaysBad(trace: seq<Option<Seen>>) {
    EverHealthy(trace) && |trace| >= 2 && BadAt(trace, |trace| - 1) && BadAt(trace, |trace| - 2)
  }

  predicate Has(events: seq<Event>, kind: Kind) {
    exists k | 0 <= k < |events| :: events[k].kind == kind
  }

  lemma {:induction false} SeenIsLast(component: string, turns: seq<Turn>) returns (i: nat)
    requires RowAfter(component, turns).Some?
    ensures IsLastSeen(History(component, turns), i)
    ensures RowAfter(component, turns).value.seen == History(component, turns)[i].value
  {
    var n := |turns| - 1;
    var front, turn := turns[..n], turns[n];
    var row := RowAfter(component, front);
    hide Undone, EventsIn;
    if Undone(component, row, turn) {
      i := SeenIsLast(component, front);
    } else if turn.now.Some? {
      i := |History(component, front)|;
    } else {
      i := SeenIsLast(component, front);
    }
  }

  lemma LastSeenIsOne(trace: seq<Option<Seen>>, i: nat, j: nat)
    requires IsLastSeen(trace, i) && IsLastSeen(trace, j)
    ensures i == j
  {
  }

  lemma EverHealthyIs(trace: seq<Option<Seen>>)
    ensures EverHealthy(trace) <==> exists i :: 0 <= i < |trace| && Healthy(trace[i])
  {
    if EverHealthy(trace) {
      var i :| 0 <= i < |trace| && !BadAt(trace, i);
      assert Healthy(trace[i]);
    }
    if exists i :: 0 <= i < |trace| && Healthy(trace[i]) {
      var i :| 0 <= i < |trace| && Healthy(trace[i]);
      assert !BadAt(trace, i);
    }
  }

  lemma TrailingBadIs(trace: seq<Option<Seen>>)
    requires EverHealthy(trace)
    ensures TrailingBad(trace) == 1 <==> JustTurnedBad(trace)
    ensures TrailingBad(trace) >= 2 <==> StaysBad(trace)
  {
    var n := |trace|;
    if n == 1 { assert !BadAt(trace, 0); }
    if n >= 2 {
      assert trace[..n - 1][n - 2] == trace[n - 2];
    }
  }

  lemma KindsAre(component: string, prior: Row, now: Option<Seen>)
    ensures var events := Planned(component, prior, now);
      && (Has(events, Restart) <==> now.Some? && Restarted(prior, now.value))
      && (Has(events, Missing) <==> now == None && TurnsBad(prior, now))
      && (Has(events, Unhealthy) <==> now.Some? && TurnsBad(prior, now))
      && (Has(events, Recovered) <==> Recovers(prior, now))
      && |events| == (if now.Some? && Restarted(prior, now.value) then 1 else 0)
        + (if TurnsBad(prior, now) then 1 else 0) + if Recovers(prior, now) then 1 else 0
  {
    var kinds, events := Kinds(prior, now), Planned(component, prior, now);
    assert forall i | 0 <= i < |kinds| :: events[i].kind == kinds[i];
    hide Restarted, TurnsBad, Recovers, Numbered;
    forall kind ensures Has(events, kind) <==> kind in kinds {
      if kind in kinds {
        var i :| 0 <= i < |kinds| && kinds[i] == kind;
        assert events[i].kind == kind;
      }
    }
  }

  /** What a turn plans, over every run: a restart exactly when the same container of an expected
      component shows a higher count, in good health or bad; an alert exactly with the second bad
      observation in a row; a recovery exactly with the first healthy one after two bad ones. */
  lemma EventsInTrace(component: string, turns: seq<Turn>, turn: Turn)
    requires RowAfter(component, turns).Some?
    ensures var trace := History(component, turns);
      var events := EventsIn(component, RowAfter(component, turns), turn);
      && (Has(events, Restart) <==> turn.now.Some? && RestartedSince(trace, turn.now.value))
      && (Has(events, Missing) <==> turn.now == None && JustTurnedBad(trace))
      && (Has(events, Unhealthy) <==> turn.now.Some? && !turn.now.value.healthy && JustTurnedBad(trace))
      && (Has(events, Recovered) <==> turn.now.Some? && turn.now.value.healthy && StaysBad(trace))
      && |events| <= 2
  {
    var prior, trace := RowAfter(component, turns).value, History(component, turns);
    RowSummarisesTrace(component, turns);
    AlertedIffBadTwice(component, turns);
    var i := SeenIsLast(component, turns);
    EverHealthyIs(trace);
    if EverHealthy(trace) { TrailingBadIs(trace); }
    KindsAre(component, prior, turn.now);
    forall j | IsLastSeen(trace, j) ensures j == i { LastSeenIsOne(trace, i, j); }
    hide RowAfter, History, Planned, TrailingBad, JustTurnedBad, StaysBad, EverHealthy, IsLastSeen, Has;
    if !prior.expected { NotYetHealthy(trace); }
  }

  lemma NotYetHealthy(trace: seq<Option<Seen>>)
    requires !EverHealthy(trace)
    ensures !JustTurnedBad(trace) && !StaysBad(trace)
  {
  }

  /** A component that was never seen causes no event. */
  lemma FirstSightIsQuiet(component: string, turns: seq<Turn>, turn: Turn)
    requires History(component, turns) == []
    ensures EventsIn(component, RowAfter(component, turns), turn) == []
  {
    RowSummarisesTrace(component, turns);
  }
}
