/** The token bucket and in-flight cap of scripts/capacity/p6_mixed_load.py (AiGate), over every
    run of acquisitions and releases with a clock that never goes back. */
module AiGate {
  datatype Limits = Limits(rate: real, concurrency: int)

  /** The fields of the gate and of the metrics it updates. */
  datatype State = State(tokens: real, updated: real, inflight: int, peak: int)

  datatype Call = Try(at: real) | Release

  function Capacity(c: Limits): real { if c.rate > 1.0 then c.rate else 1.0 }

  function Start(c: Limits, at: real): State { State(Capacity(c), at, 0, 0) }

  function Min(a: real, b: real): real { if a <= b then a else b }

  function Max(a: int, b: int): int { if a >= b then a else b }

  predicate Closed(c: Limits) { c.rate <= 0.0 || c.concurrency <= 0 }

  function Refilled(c: Limits, s: State, now: real): State {
    s.(tokens := Min(Capacity(c), s.tokens + (now - s.updated) * c.rate), updated := now)
  }

  predicate Grants(c: Limits, s: State, call: Call) {
    call.Try? && !Closed(c) && Refilled(c, s, call.at).tokens >= 1.0 && s.inflight < c.concurrency
  }

  function After(c: Limits, s: State, call: Call): State {
    match call
    case Release => s.(inflight := s.inflight - 1)
    case Try(at) =>
      if Closed(c) then s
      else if Grants(c, s, call) then
        var r := Refilled(c, s, at);
        r.(tokens := r.tokens - 1.0, inflight := s.inflight + 1, peak := Max(s.peak, s.inflight + 1))
      else Refilled(c, s, at)
  }

  function Run(c: Limits, s: State, calls: seq<Call>): State
    decreases |calls|
  {
    if calls == [] then s else Run(c, After(c, s, calls[0]), calls[1..])
  }

  /** try_acquire and release on the gate's fields; `calls` is the run so far. */
  class Gate {
    const limits: Limits
    const capacity: real
    var tokens: real
    var updated: real
    var inflight: int
    var inflightMax: int
    ghost var start: real
    ghost var calls: seq<Call>

    ghost predicate Valid()
      reads this
    {
      capacity == Capacity(limits)
      && State(tokens, updated, inflight, inflightMax) == Run(limits, Start(limits, start), calls)
    }

    constructor (rate: real, concurrency: int, now: real)
      ensures Valid() && limits == Limits(rate, concurrency) && calls == [] && start == now
    {
      limits := Limits(rate, concurrency);
      capacity := if rate > 1.0 then rate else 1.0;
      tokens := if rate > 1.0 then rate else 1.0;
      updated, inflight, inflightMax := now, 0, 0;
      start, calls := now, [];
    }

    method TryAcquire(now: real) returns (granted: bool)
      requires Valid()
      modifies this
      ensures Valid() && start == old(start) && calls == old(calls) + [Try(now)]
      ensures granted <==> Grants(limits, old(State(tokens, updated, inflight, inflightMax)), Try(now))
      ensures inflight == old(inflight) + if granted then 1 else 0
    {
      RunMore(limits, Start(limits, start), calls, Try(now));
      ghost var before := State(tokens, updated, inflight, inflightMax);
      hide Run;
      calls := calls + [Try(now)];
      if limits.rate <= 0.0 || limits.concurrency <= 0 {
        return false;
      }
      tokens := Min(capacity, tokens + (now - updated) * limits.rate);
      updated := now;
      assert tokens == Refilled(limits, before, now).tokens;
      hide Refilled;
      if tokens < 1.0 || inflight >= limits.concurrency {
        return false;
      }
      tokens := tokens - 1.0;
      inflight := inflight + 1;
      inflightMax := Max(inflightMax, inflight);
      return true;
    }

    method Release()
      requires Valid()
      modifies this
      ensures Valid() && start == old(start) && calls == old(calls) + [Call.Release]
      ensures inflight == old(inflight) - 1
    {
      RunMore(limits, Start(limits, start), calls, Call.Release);
      calls := calls + [Call.Release];
      inflight := inflight - 1;
    }
  }

  lemma {:induction false} RunMore(c: Limits, s: State, calls: seq<Call>, call: Call)
    ensures Run(c, s, calls + [call]) == After(c, Run(c, s, calls), call)
    decreases |calls|
  {
    if calls == [] {
      assert [] + [call] == [call];
      assert Run(c, After(c, s, call), []) == After(c, s, call);
    } else {
      hide After;
      assert (calls + [call])[1..] == calls[1..] + [call];
      RunMore(c, After(c, s, calls[0]), calls[1..], call);
    }
  }

  // ----- the rate -----

  /** Clock readings never go back, from `since` on. */
  predicate Forward(since: real, calls: seq<Call>)
    decreases |calls|
  {
    calls == [] ||
    match calls[0]
    case Release => Forward(since, calls[1..])
    case Try(at) => since <= at && Forward(at, calls[1..])
  }

  /** How many acquisitions succeed with a clock reading in [from, to]. */
  function Granted(c: Limits, s: State, calls: seq<Call>, from: real, to: real): nat
    decreases |calls|
  {
    if calls == [] then 0
    else
      (if Grants(c, s, calls[0]) && from <= calls[0].at <= to then 1 else 0)
        + Granted(c, After(c, s, calls[0]), calls[1..], from, to)
  }

  lemma Accrued(rate: real, a: real, b: real, t: real)
    requires rate > 0.0 && a <= b
    ensures (b - a) * rate >= 0.0
    ensures rate * (t - a) == rate * (t - b) + (b - a) * rate
  {
  }

  lemma {:induction false} NoneBefore(c: Limits, s: State, calls: seq<Call>, since: real, from: real, to: real)
    requires Forward(since, calls) && since > to
    ensures Granted(c, s, calls, from, to) == 0
    decreases |calls|
  {
    if calls != [] {
      NoneBefore(c, After(c, s, calls[0]), calls[1..], if calls[0].Try? then calls[0].at else since, from, to);
    }
  }

  lemma ReleaseStep(c: Limits, s: State)
    ensures !Grants(c, s, Release)
    ensures After(c, s, Release).tokens == s.tokens && After(c, s, Release).updated == s.updated
  {
  }

  /** From a state on, no more than its tokens and what accrues until `to`. */
  lemma {:induction false} AtMostTokens(c: Limits, s: State, calls: seq<Call>, from: real, to: real)
    requires !Closed(c) && 0.0 <= s.tokens <= Capacity(c) && Forward(s.updated, calls) && s.updated <= to
    ensures Granted(c, s, calls, from, to) as real <= s.tokens + c.rate * (to - s.updated)
    decreases |calls|
  {
    hide After, Grants, Capacity;
    Accrued(c.rate, s.updated, to, to);
    if calls != [] {
      var next := After(c, s, calls[0]);
      if calls[0].Release? {
        ReleaseStep(c, s);
        AtMostTokens(c, next, calls[1..], from, to);
      } else {
        RefillBounds(c, s, calls[0].at);
        if calls[0].at > to {
          NoneBefore(c, next, calls[1..], calls[0].at, from, to);
        } else {
          AtMostTokens(c, next, calls[1..], from, to);
          TokensStep(c, s, calls[0], to, Granted(c, next, calls[1..], from, to));
        }
      }
    }
  }

  lemma TokensStep(c: Limits, s: State, call: Call, to: real, more: nat)
    requires !Closed(c) && call.Try? && s.updated <= call.at
    requires more as real <= After(c, s, call).tokens + c.rate * (to - call.at)
    ensures (more + if Grants(c, s, call) then 1 else 0) as real <= s.tokens + c.rate * (to - s.updated)
  {
    Accrued(c.rate, s.updated, call.at, to);
    var accrued, later, whole := (call.at - s.updated) * c.rate, c.rate * (to - call.at), c.rate * (to - s.updated);
    assert whole == later + accrued;
    assert After(c, s, call).tokens <= s.tokens + accrued - (if Grants(c, s, call) then 1.0 else 0.0);
    assert (more + 1) as real == more as real + 1.0;
  }

  /** The first reading inside the interval finds at most a full bucket. */
  lemma {:induction false} RateFrom(c: Limits, s: State, calls: seq<Call>, from: real, to: real)
    requires !Closed(c) && 0.0 <= s.tokens <= Capacity(c) && Forward(s.updated, calls) && from <= to
    ensures Granted(c, s, calls, from, to) as real <= Capacity(c) + c.rate * (to - from)
    decreases |calls|
  {
    hide After, Grants;
    Accrued(c.rate, from, to, to);
    if calls != [] {
      var next := After(c, s, calls[0]);
      if calls[0].Release? {
        ReleaseStep(c, s);
        RateFrom(c, next, calls[1..], from, to);
      } else {
        RefillBounds(c, s, calls[0].at);
        if calls[0].at < from {
          RateFrom(c, next, calls[1..], from, to);
        } else if calls[0].at > to {
          NoneBefore(c, next, calls[1..], calls[0].at, from, to);
        } else {
          AtMostTokens(c, next, calls[1..], from, to);
          FirstStep(c, s, calls[0], from, to, Granted(c, next, calls[1..], from, to));
        }
      }
    }
  }

  lemma FirstStep(c: Limits, s: State, call: Call, from: real, to: real, more: nat)
    requires !Closed(c) && call.Try? && s.updated <= call.at && from <= call.at && 0.0 <= s.tokens <= Capacity(c)
    requires more as real <= After(c, s, call).tokens + c.rate * (to - call.at)
    ensures (more + if Grants(c, s, call) then 1 else 0) as real <= Capacity(c) + c.rate * (to - from)
  {
    RefillBounds(c, s, call.at);
    Accrued(c.rate, from, call.at, to);
    hide After, Grants;
    assert (more + 1) as real == more as real + 1.0;
  }

  lemma RefillBounds(c: Limits, s: State, at: real)
    requires !Closed(c) && 0.0 <= s.tokens <= Capacity(c) && s.updated <= at
    ensures var next := After(c, s, Try(at));
      next.updated == at && 0.0 <= next.tokens <= Capacity(c) - (if Grants(c, s, Try(at)) then 1.0 else 0.0)
  {
    Accrued(c.rate, s.updated, at, at);
    var accrued := (at - s.updated) * c.rate;
    var full := Refilled(c, s, at);
    assert full.tokens == Min(Capacity(c), s.tokens + accrued) && 0.0 <= full.tokens <= Capacity(c);
    hide Refilled, Capacity;
    assert After(c, s, Try(at)).tokens == full.tokens - (if Grants(c, s, Try(at)) then 1.0 else 0.0);
  }

  lemma {:induction false} ClosedGrantsNothing(c: Limits, s: State, calls: seq<Call>, from: real, to: real)
    requires Closed(c)
    ensures Granted(c, s, calls, from, to) == 0
    decreases |calls|
  {
    if calls != [] { ClosedGrantsNothing(c, After(c, s, calls[0]), calls[1..], from, to); }
  }

  /** In any interval of any run: at most a full bucket and the rate times the length of the
      interval; a gate with a rate or cap that is not positive grants nothing. */
  lemma RateHolds(c: Limits, start: real, calls: seq<Call>, from: real, to: real)
    requires Forward(start, calls) && from <= to
    ensures Closed(c) ==> Granted(c, Start(c, start), calls, from, to) == 0
    ensures !Closed(c) ==> Granted(c, Start(c, start), calls, from, to) as real <= Capacity(c) + c.rate * (to - from)
  {
    if Closed(c) {
      ClosedGrantsNothing(c, Start(c, start), calls, from, to);
    } else {
      RateFrom(c, Start(c, start), calls, from, to);
    }
  }

  /** The bound is met: a bucket of one token grants at the start and again when the token is back. */
  lemma RateIsTight(rate: real, start: real)
    requires 0.0 < rate <= 1.0
    ensures var c := Limits(rate, 2);
      Granted(c, Start(c, start), [Try(start), Try(start + 1.0 / rate)], start, start + 1.0 / rate) as real
        == Capacity(c) + rate * (start + 1.0 / rate - start)
  {
    var c, t := Limits(rate, 2), start + 1.0 / rate;
    assert rate * (1.0 / rate) == 1.0;
    var s0 := Start(c, start);
    var s1 := After(c, s0, Try(start));
    assert Refilled(c, s0, start).tokens == 1.0;
    assert s1.tokens == 0.0 && s1.updated == start && s1.inflight == 1;
    assert (t - start) * rate == 1.0;
    assert Grants(c, s1, Try(t));
    var calls := [Try(start), Try(t)];
    assert calls[1..] == [Try(t)];
    assert Granted(c, s1, [Try(t)], start, t) == 1 by { assert [Try(t)][1..] == []; }
  }

  // ----- the cap -----

  /** Acquisitions that succeeded minus releases. */
  function Balance(c: Limits, s: State, calls: seq<Call>): int
    decreases |calls|
  {
    if calls == [] then 0
    else
      (match calls[0] case Release => -1 case Try(_) => if Grants(c, s, calls[0]) then 1 else 0)
        + Balance(c, After(c, s, calls[0]), calls[1..])
  }

  lemma {:induction false} InflightIsBalance(c: Limits, s: State, calls: seq<Call>)
    ensures Run(c, s, calls).inflight == s.inflight + Balance(c, s, calls)
    decreases |calls|
  {
    if calls != [] { InflightIsBalance(c, After(c, s, calls[0]), calls[1..]); }
  }

  lemma {:induction false} NeverAboveCap(c: Limits, s: State, calls: seq<Call>)
    requires s.inflight <= Max(c.concurrency, 0)
    ensures Run(c, s, calls).inflight <= Max(c.concurrency, 0)
    decreases |calls|
  {
    if calls != [] { NeverAboveCap(c, After(c, s, calls[0]), calls[1..]); }
  }

  /** After every run of calls, whoever makes them: the count is successes minus releases, and at
      most the cap. */
  lemma CapHolds(c: Limits, start: real, calls: seq<Call>)
    ensures var s := Start(c, start); var inflight := Run(c, s, calls).inflight;
      inflight == Balance(c, s, calls) && inflight <= Max(c.concurrency, 0)
  {
    InflightIsBalance(c, Start(c, start), calls);
    NeverAboveCap(c, Start(c, start), calls);
  }

  // ----- the virtual users -----

  /** One call on the gate by one virtual user. */
  datatype UserStep = UserStep(user: nat, call: Call)

  function CallsOf(steps: seq<UserStep>): (calls: seq<Call>)
    ensures |calls| == |steps|
  {
    if steps == [] then [] else [steps[0].call] + CallsOf(steps[1..])
  }

  /** The users inside their call afterwards: a granted acquisition enters it, the release leaves it. */
  function HoldersAfter(c: Limits, s: State, holders: set<nat>, step: UserStep): set<nat> {
    if step.call.Release? then holders - {step.user}
    else if Grants(c, s, step.call) then holders + {step.user}
    else holders
  }

  function Holders(c: Limits, s: State, holders: set<nat>, steps: seq<UserStep>): set<nat>
    decreases |steps|
  {
    if steps == [] then holders
    else Holders(c, After(c, s, steps[0].call), HoldersAfter(c, s, holders, steps[0]), steps[1..])
  }

  /** What the client does: a user asks only while it is not inside a call of its own, and releases
      once, in the `finally` of the call it was granted. */
  predicate ClientRun(c: Limits, s: State, holders: set<nat>, steps: seq<UserStep>)
    decreases |steps|
  {
    steps == [] ||
    (&& (steps[0].call.Release? <==> steps[0].user in holders)
     && ClientRun(c, After(c, s, steps[0].call), HoldersAfter(c, s, holders, steps[0]), steps[1..]))
  }

  lemma {:induction false} InflightCountsHolders(c: Limits, s: State, holders: set<nat>, steps: seq<UserStep>)
    requires ClientRun(c, s, holders, steps) && s.inflight == |holders|
    ensures Run(c, s, CallsOf(steps)).inflight == |Holders(c, s, holders, steps)|
    decreases |steps|
  {
    if steps != [] {
      var call := steps[0].call;
      assert CallsOf(steps)[0] == call && CallsOf(steps)[1..] == CallsOf(steps[1..]);
      InflightCountsHolders(c, After(c, s, call), HoldersAfter(c, s, holders, steps[0]), steps[1..]);
    }
  }

  /** Over every interleaving of the virtual users, at every moment: the count in flight is the
      number of users inside their call, so it stays between zero and the cap. */
  lemma InflightHolds(c: Limits, start: real, steps: seq<UserStep>)
    requires ClientRun(c, Start(c, start), {}, steps)
    ensures Run(c, Start(c, start), CallsOf(steps)).inflight == |Holders(c, Start(c, start), {}, steps)|
    ensures 0 <= Run(c, Start(c, start), CallsOf(steps)).inflight <= Max(c.concurrency, 0)
  {
    InflightCountsHolders(c, Start(c, start), {}, steps);
    CapHolds(c, start, CallsOf(steps));
  }

  /** The gate itself does not keep the count from going below zero: a release that nothing was
      granted for is counted too. */
  lemma StrayReleaseIsCounted(c: Limits, start: real)
    ensures Run(c, Start(c, start), [Release]).inflight == -1
  {
    assert [Release][1..] == [];
  }

  lemma {:induction false} PeakIsReached(c: Limits, s: State, calls: seq<Call>) returns (n: nat)
    requires s.inflight <= s.peak
    ensures n <= |calls| && Run(c, s, calls).peak == Max(s.peak, Run(c, s, calls[..n]).inflight)
    decreases |calls|
  {
    if calls == [] {
      n := 0;
    } else {
      var next := After(c, s, calls[0]);
      var m := PeakIsReached(c, next, calls[1..]);
      if Run(c, s, calls).peak == s.peak {
        n := 0;
      } else if Run(c, s, calls).peak == next.inflight {
        n := 1;
        assert calls[..1][1..] == [];
      } else {
        n := m + 1;
        assert calls[..n][1..] == calls[1..][..m];
      }
    }
  }

  lemma {:induction false} PeakIsBound(c: Limits, s: State, calls: seq<Call>, n: nat)
    requires s.inflight <= s.peak && n <= |calls|
    ensures Run(c, s, calls[..n]).inflight <= Run(c, s, calls).peak
    ensures s.peak <= Run(c, s, calls).peak
    decreases |calls|
  {
    if calls != [] {
      var next := After(c, s, calls[0]);
      PeakIsBound(c, next, calls[1..], if n == 0 then 0 else n - 1);
      if n > 0 { assert calls[..n][1..] == calls[1..][..n - 1]; }
    }
  }

  /** ai_inflight_max is the true maximum: no prefix of the run had more in flight, and some
      prefix had exactly as many. */
  lemma PeakIsMaximum(c: Limits, start: real, calls: seq<Call>)
    ensures var s := Start(c, start);
      && (forall n | 0 <= n <= |calls| :: Run(c, s, calls[..n]).inflight <= Run(c, s, calls).peak)
      && exists n | 0 <= n <= |calls| :: Run(c, s, calls[..n]).inflight == Run(c, s, calls).peak
  {
    hide Run;
    var s := Start(c, start);
    forall n | 0 <= n <= |calls| ensures Run(c, s, calls[..n]).inflight <= Run(c, s, calls).peak {
      PeakIsBound(c, s, calls, n);
    }
    var n := PeakIsReached(c, s, calls);
    if Run(c, s, calls[..n]).inflight != Run(c, s, calls).peak {
      PeakIsBound(c, s, calls, 0);
      RunNothing(c, s, calls);
      assert Run(c, s, calls[..0]).inflight == Run(c, s, calls).peak;
    }
  }

  lemma RunNothing(c: Limits, s: State, calls: seq<Call>)
    ensures Run(c, s, calls[..0]) == s
  {
  }
}
