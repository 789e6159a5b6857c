/** The verdict of a load run, said of the moments of its log by their number: no counter, bucket or
    percentile is mentioned. */
module LoadClaims {
  import AiGate
  import opened Prelude
  import opened LoadMetrics
  import opened LoadVerdict

  ghost function AskedAt(log: seq<Moment>): set<nat> { set i | 0 <= i < |log| && log[i].Recorded? }

  predicate Failed(m: Moment) {
    && m.Recorded?
    && (m.entry.kind == ClientError || m.entry.kind == ServerError || m.entry.kind == EdgeBlock
        || m.entry.kind == Transport)
  }

  ghost function FailedAt(log: seq<Moment>): set<nat> { set i | 0 <= i < |log| && Failed(log[i]) }

  /** What was recorded from second 10 * p up to the next multiple of ten. */
  predicate Within(m: Moment, p: int) { m.Recorded? && 10.0 * p as real <= m.entry.now < 10.0 * (p + 1) as real }

  ghost function PeriodAt(log: seq<Moment>, p: int): set<nat> { set i | 0 <= i < |log| && Within(log[i], p) }

  predicate Broken(m: Moment, p: int) { Within(m, p) && m.entry.kind == ServerError }

  ghost function BrokenAt(log: seq<Moment>, p: int): set<nat> { set i | 0 <= i < |log| && Broken(log[i], p) }

  /** Some SteadyBegins and no SteadyEnds stands before moment i. */
  predicate Steady(log: seq<Moment>, i: nat)
    requires i <= |log|
  {
    && (exists j | 0 <= j < i :: log[j].SteadyBegins?)
    && !exists j | 0 <= j < i :: log[j].SteadyEnds?
  }

  predicate Timed(m: Moment) { m.Recorded? && m.entry.route != "ai_message" && m.entry.latency.Some? }

  ghost function TimedAt(log: seq<Moment>): set<nat> {
    set i | 0 <= i < |log| && Timed(log[i]) && Steady(log, i)
  }

  predicate Quick(m: Moment) { Timed(m) && m.entry.latency.value < 499.9995 }

  ghost function QuickAt(log: seq<Moment>): set<nat> {
    set i | 0 <= i < |log| && Quick(log[i]) && Steady(log, i)
  }

  /** Moment i is the last of the log at which the steady window begins (or ends). */
  predicate LastBegin(log: seq<Moment>, i: int) {
    0 <= i < |log| && log[i].SteadyBegins? && forall j | i < j < |log| :: !log[j].SteadyBegins?
  }

  predicate LastEnd(log: seq<Moment>, i: int) {
    0 <= i < |log| && log[i].SteadyEnds? && forall j | i < j < |log| :: !log[j].SteadyEnds?
  }

  // ----- counting by moments -----

  lemma {:induction false} AskedIs(log: seq<Moment>)
    ensures |AskedAt(log)| == |Records(log)|
  {
    if log != [] {
      var front, last := log[..|log| - 1], log[|log| - 1];
      AskedIs(front);
      OneMore(AskedAt(front), AskedAt(log), |front|, last.Recorded?);
    }
  }

  lemma ErrorsMore(h: seq<Entry>, m: Moment)
    requires m.Recorded?
    ensures Errors(h + [m.entry]) == Errors(h) + if Failed(m) then 1 else 0
  {
    var all := h + [m.entry];
    assert all[..|all| - 1] == h;
  }

  lemma OneMoreFailed(log: seq<Moment>)
    requires log != []
    ensures |FailedAt(log)| == |FailedAt(log[..|log| - 1])| + if Failed(log[|log| - 1]) then 1 else 0
  {
    hide Failed;
    OneMore(FailedAt(log[..|log| - 1]), FailedAt(log), |log| - 1, Failed(log[|log| - 1]));
  }

  lemma {:induction false} FailedIs(log: seq<Moment>)
    ensures |FailedAt(log)| == Errors(Records(log))
  {
    if log != [] {
      var front, last := log[..|log| - 1], log[|log| - 1];
      FailedIs(front);
      OneMoreFailed(log);
      LastOfLog(log);
      hide FailedAt;
      if last.Recorded? { ErrorsMore(Records(front), last); }
      hide Errors, Records;
    }
  }

  lemma LastOfLog(log: seq<Moment>)
    requires log != []
    ensures var front, last := log[..|log| - 1], log[|log| - 1];
      && Records(log) == (if last.Recorded? then Records(front) + [last.entry] else Records(front))
      && SteadyRecords(log) ==
        if last.Recorded? && InSteady(front) then SteadyRecords(front) + [last.entry] else SteadyRecords(front)
  {
    LastMoment(log[..|log| - 1], log[|log| - 1]);
    assert log[..|log| - 1] + [log[|log| - 1]] == log;
  }

  lemma PeriodIs(m: Moment, p: int)
    requires m.Recorded?
    ensures BucketOf(m.entry.now) == Period(p) <==> Within(m, p)
  {
    var x := m.entry.now / 10.0;
    assert 10.0 * x == m.entry.now;
    assert x.Floor == p <==> p as real <= x < (p + 1) as real;
  }

  lemma LastInBucket(log: seq<Moment>, p: int, errorsOnly: bool)
    requires log != []
    ensures var front, last := log[..|log| - 1], log[|log| - 1];
      InBucket(Records(log), Period(p), errorsOnly) == InBucket(Records(front), Period(p), errorsOnly) +
        if Within(last, p) && (!errorsOnly || last.entry.kind == ServerError) then 1 else 0
  {
    var front, last := log[..|log| - 1], log[|log| - 1];
    LastOfLog(log);
    hide Records;
    if last.Recorded? {
      PeriodIs(last, p);
      var all := Records(front) + [last.entry];
      assert all[..|all| - 1] == Records(front);
    }
  }

  lemma OneMoreInPeriod(log: seq<Moment>, p: int)
    requires log != []
    ensures |PeriodAt(log, p)| == |PeriodAt(log[..|log| - 1], p)| + if Within(log[|log| - 1], p) then 1 else 0
  {
    hide Within;
    OneMore(PeriodAt(log[..|log| - 1], p), PeriodAt(log, p), |log| - 1, Within(log[|log| - 1], p));
  }

  lemma OneMoreBroken(log: seq<Moment>, p: int)
    requires log != []
    ensures |BrokenAt(log, p)| == |BrokenAt(log[..|log| - 1], p)| + if Broken(log[|log| - 1], p) then 1 else 0
  {
    hide Broken;
    OneMore(BrokenAt(log[..|log| - 1], p), BrokenAt(log, p), |log| - 1, Broken(log[|log| - 1], p));
  }

  lemma {:induction false} PeriodCounts(log: seq<Moment>, p: int)
    ensures |PeriodAt(log, p)| == InBucket(Records(log), Period(p), false)
    ensures |BrokenAt(log, p)| == InBucket(Records(log), Period(p), true)
  {
    if log != [] {
      var front, last := log[..|log| - 1], log[|log| - 1];
      PeriodCounts(front, p);
      LastInBucket(log, p, false);
      LastInBucket(log, p, true);
      OneMoreInPeriod(log, p);
      OneMoreBroken(log, p);
      hide InBucket, Records, PeriodAt, BrokenAt, Within;
    }
  }

  lemma {:induction false} BeginsIff(log: seq<Moment>)
    ensures StartOf(log).Some? <==> exists j | 0 <= j < |log| :: log[j].SteadyBegins?
    ensures EndOf(log).Some? <==> exists j | 0 <= j < |log| :: log[j].SteadyEnds?
  {
    if log != [] { BeginsIff(log[..|log| - 1]); }
  }

  lemma {:induction false} BelowMore(s: seq<real>, x: real, v: real)
    ensures CountBelow(s + [x], v) == CountBelow(s, v) + if x < v then 1 else 0
  {
    if s != [] {
      assert (s + [x])[1..] == s[1..] + [x];
      BelowMore(s[1..], x, v);
    }
  }

  lemma LastTimed(log: seq<Moment>)
    requires log != []
    ensures var front, last := log[..|log| - 1], log[|log| - 1];
      SteadyLatencies(SteadyRecords(log)) ==
        SteadyLatencies(SteadyRecords(front)) +
        if Timed(last) && InSteady(front) then [last.entry.latency.value] else []
  {
    var front, last := log[..|log| - 1], log[|log| - 1];
    LastOfLog(log);
    hide SteadyRecords, InSteady;
    var before := SteadyRecords(front);
    assert SteadyLatencies(before) + [] == SteadyLatencies(before);
    if last.Recorded? && InSteady(front) {
      var all := before + [last.entry];
      assert all[..|all| - 1] == before;
    }
  }

  lemma SteadyBefore(log: seq<Moment>)
    requires log != []
    ensures Steady(log, |log| - 1) <==> InSteady(log[..|log| - 1])
    ensures forall i | 0 <= i < |log| - 1 :: Steady(log, i) <==> Steady(log[..|log| - 1], i)
  {
    BeginsIff(log[..|log| - 1]);
    hide StartOf, EndOf;
    assert forall i | 0 <= i < |log| - 1 :: log[..|log| - 1][i] == log[i];
  }

  lemma OneMoreTimed(log: seq<Moment>)
    requires log != []
    ensures var front, last := log[..|log| - 1], log[|log| - 1];
      |TimedAt(log)| == |TimedAt(front)| + if Timed(last) && InSteady(front) then 1 else 0
  {
    var front, last := log[..|log| - 1], log[|log| - 1];
    SteadyBefore(log);
    hide InSteady, Steady, Timed;
    OneMore(TimedAt(front), TimedAt(log), |front|, Timed(last) && InSteady(front));
  }

  lemma OneMoreQuick(log: seq<Moment>)
    requires log != []
    ensures var front, last := log[..|log| - 1], log[|log| - 1];
      |QuickAt(log)| == |QuickAt(front)| + if Quick(last) && InSteady(front) then 1 else 0
  {
    var front, last := log[..|log| - 1], log[|log| - 1];
    SteadyBefore(log);
    hide InSteady, Steady, Quick;
    OneMore(QuickAt(front), QuickAt(log), |front|, Quick(last) && InSteady(front));
  }

  /** The moments whose latency counts, and the quick ones of them, one by one. */
  lemma {:induction false} SteadyCounts(log: seq<Moment>)
    ensures |TimedAt(log)| == |SteadyLatencies(SteadyRecords(log))|
    ensures |QuickAt(log)| == CountBelow(SteadyLatencies(SteadyRecords(log)), 499.9995)
  {
    if log != [] {
      var front, last := log[..|log| - 1], log[|log| - 1];
      hide InSteady, Steady;
      SteadyCounts(front);
      LastTimed(log);
      OneMoreTimed(log);
      OneMoreQuick(log);
      var before := SteadyLatencies(SteadyRecords(front));
      if Timed(last) { BelowMore(before, last.entry.latency.value, 499.9995); }
      hide TimedAt, QuickAt, SteadyRecords, SteadyLatencies, CountBelow, Timed;
      assert before + [] == before;
    }
  }

  /** The window is fast enough when its quick moments are at least 95 in 100 of it. */
  lemma FastIff(log: seq<Moment>)
    ensures FastEnough(SteadyLatencies(SteadyRecords(log))) <==>
      TimedAt(log) != {} && 100 * |QuickAt(log)| >= 95 * |TimedAt(log)|
  {
    var latencies := SteadyLatencies(SteadyRecords(log));
    FastEnoughMeans(latencies);
    SteadyCounts(log);
    hide FastEnough, CountBelow, SteadyLatencies, SteadyRecords, QuickAt;
    var x := 0.95 * |latencies| as real;
    assert x <= Ceil(x) as real < x + 1.0;
    assert TimedAt(log) == {} <==> |TimedAt(log)| == 0;
  }

  lemma {:induction false} StartIsLast(log: seq<Moment>)
    ensures StartOf(log).Some? <==> exists i :: LastBegin(log, i)
    ensures forall i | LastBegin(log, i) :: StartOf(log) == Some(log[i].at)
  {
    if log != [] {
      var front, n := log[..|log| - 1], |log| - 1;
      StartIsLast(front);
      if log[n].SteadyBegins? {
        assert LastBegin(log, n);
      } else {
        forall i ensures LastBegin(log, i) <==> LastBegin(front, i) {
          assert forall j | 0 <= j < n :: front[j] == log[j];
        }
      }
    }
  }

  lemma {:induction false} EndIsLast(log: seq<Moment>)
    ensures EndOf(log).Some? <==> exists i :: LastEnd(log, i)
    ensures forall i | LastEnd(log, i) :: EndOf(log) == Some(log[i].at)
  {
    if log != [] {
      var front, n := log[..|log| - 1], |log| - 1;
      EndIsLast(front);
      if log[n].SteadyEnds? {
        assert LastEnd(log, n);
      } else {
        forall i ensures LastEnd(log, i) <==> LastEnd(front, i) {
          assert forall j | 0 <= j < n :: front[j] == log[j];
        }
      }
    }
  }

  /** From the last beginning, unless it is at second 0 and so taken for absent, to the last end,
      or to second 0 when there was none. */
  ghost predicate LastedAsPlanned(log: seq<Moment>, planned: real) {
    && (forall i, j | LastBegin(log, i) && log[i].at != 0.0 && LastEnd(log, j) :: log[j].at - log[i].at >= planned)
    && (forall i | LastBegin(log, i) && log[i].at != 0.0 :: (exists j :: LastEnd(log, j)) || -log[i].at >= planned)
    && ((exists i :: LastBegin(log, i) && log[i].at != 0.0) || planned <= 0.0)
  }

  lemma LastedIff(log: seq<Moment>, planned: real)
    ensures Seconds(StartOf(log), EndOf(log)) >= planned <==> LastedAsPlanned(log, planned)
  {
    StartIsLast(log);
    EndIsLast(log);
    hide StartOf, EndOf, LastBegin, LastEnd;
  }

  predicate NeverBelow(log: seq<Moment>, users: int) {
    forall i | 0 <= i < |log| && log[i].Sampled? :: log[i].signedIn >= users
  }

  predicate Sampled(log: seq<Moment>) { exists i | 0 <= i < |log| :: log[i].Sampled? }

  /** Everybody signed in at every sample, of which there is one when anybody was wanted. */
  predicate AllSignedIn(log: seq<Moment>, users: int) {
    NeverBelow(log, users) && (Sampled(log) || users <= 0)
  }

  predicate EachReaches(samples: seq<int>, users: int) { forall k | 0 <= k < |samples| :: samples[k] >= users }

  lemma ReachesMore(samples: seq<int>, n: int, users: int)
    ensures EachReaches(samples + [n], users) <==> EachReaches(samples, users) && n >= users
  {
    assert (samples + [n])[|samples|] == n && forall k | 0 <= k < |samples| :: (samples + [n])[k] == samples[k];
  }

  lemma SampledMore(log: seq<Moment>, users: int)
    requires log != []
    ensures var front, last := log[..|log| - 1], log[|log| - 1];
      && (NeverBelow(log, users) <==> NeverBelow(front, users) && (last.Sampled? ==> last.signedIn >= users))
      && (Sampled(log) <==> Sampled(front) || last.Sampled?)
  {
    assert forall i | 0 <= i < |log| - 1 :: log[..|log| - 1][i] == log[i];
  }

  lemma {:induction false} SamplesAre(log: seq<Moment>, users: int)
    ensures Samples(log) != [] <==> Sampled(log)
    ensures EachReaches(Samples(log), users) <==> NeverBelow(log, users)
  {
    if log != [] {
      var front, last := log[..|log| - 1], log[|log| - 1];
      SamplesAre(front, users);
      SampledMore(log, users);
      if last.Sampled? { ReachesMore(Samples(front), last.signedIn, users); }
      hide NeverBelow, Sampled, EachReaches;
      assert Samples(front) + [] == Samples(front);
    }
  }

  ghost predicate NoStorm(log: seq<Moment>) {
    forall p :: |BrokenAt(log, p)| < 20 || 100 * |BrokenAt(log, p)| < |PeriodAt(log, p)|
  }

  lemma NoStormIff(log: seq<Moment>)
    ensures NoStorm(log) <==> !exists key :: StormIn(Records(log), key)
  {
    forall p ensures StormIn(Records(log), Period(p)) <==>
      |BrokenAt(log, p)| >= 20 && 100 * |BrokenAt(log, p)| >= |PeriodAt(log, p)|
    {
      PeriodCounts(log, p);
    }
    hide StormIn, BrokenAt, PeriodAt;
    forall key | StormIn(Records(log), key) ensures !NoStorm(log) { assert key == Period(key.index); }
  }

  /** PASS in terms of the log alone: some request and fewer than one in a hundred failed, no storm
      in any ten seconds, a fast, long and full steady window, and a cap on AI calls in range. */
  ghost predicate PassInLog(log: seq<Moment>, gate: AiGate.Limits, c: Plan) {
    && AskedAt(log) != {} && 100 * |FailedAt(log)| < |AskedAt(log)| && NoStorm(log)
    && TimedAt(log) != {} && 100 * |QuickAt(log)| >= 95 * |TimedAt(log)|
    && LastedAsPlanned(log, c.planned) && AllSignedIn(log, c.peakUsers) && gate.concurrency >= 0
  }

  lemma PassesIff(log: seq<Moment>, gate: AiGate.Limits, start: real, calls: seq<AiGate.Call>, c: Plan)
    ensures Passes(log, gate, start, calls, c) <==> PassInLog(log, gate, c)
  {
    AskedIs(log);
    FailedIs(log);
    NoStormIff(log);
    FastIff(log);
    LastedIff(log, c.planned);
    SamplesAre(log, c.peakUsers);
    CapIsNeverExceededIff(gate, start, calls);
    hide AskedAt, FailedAt, NoStorm, TimedAt, QuickAt, LastedAsPlanned;
    assert HeldAtPeak(log, c) <==>
      Seconds(StartOf(log), EndOf(log)) >= c.planned && EachReaches(Samples(log), c.peakUsers)
      && (Samples(log) != [] || c.peakUsers <= 0);
    hide HeldAtPeak, EachReaches, NeverBelow, Sampled;
    hide Records, Errors, StormIn, FastEnough, Seconds, Samples, SteadyRecords, SteadyLatencies;
    hide NeverOverCap, StartOf, EndOf;
    assert AskedAt(log) == {} <==> |AskedAt(log)| == 0;
  }
}
