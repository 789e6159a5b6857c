/** The verdict of a load run (percentile, storm_buckets and evaluate_verdict of
    scripts/capacity/p6_mixed_load.py) and what it says about everything recorded. */
module LoadVerdict {
  import AiGate
  import opened Prelude
  import opened LoadMetrics

  // ----- nearest-rank percentile -----

  function Insert(x: real, s: seq<real>): seq<real> {
    if s == [] || x <= s[0] then [x] + s else [s[0]] + Insert(x, s[1..])
  }

  /** sorted(values) */
  function Sorted(values: seq<real>): (r: seq<real>)
    ensures |r| == |values|
  {
    if values == [] then []
    else
      InsertLength(values[0], Sorted(values[1..]));
      Insert(values[0], Sorted(values[1..]))
  }

  lemma {:induction false} InsertLength(x: real, s: seq<real>)
    ensures |Insert(x, s)| == |s| + 1
  {
    if s != [] && x > s[0] { InsertLength(x, s[1..]); }
  }

  function Ceil(x: real): int { -((-x).Floor) }

  function Rank(n: nat, fraction: real): int
    requires n > 0
  {
    var k := Ceil(fraction * n as real) - 1;
    if k > n - 1 then n - 1 else if k < 0 then 0 else k
  }

  /** The sample chosen, before rounding. */
  function Percentile(values: seq<real>, fraction: real): real
    requires values != []
  {
    Sorted(values)[Rank(|values|, fraction)]
  }

  function CountAtMost(s: seq<real>, v: real): nat {
    if s == [] then 0 else (if s[0] <= v then 1 else 0) + CountAtMost(s[1..], v)
  }

  function CountBelow(s: seq<real>, v: real): nat {
    if s == [] then 0 else (if s[0] < v then 1 else 0) + CountBelow(s[1..], v)
  }

  lemma {:induction false} InsertCounts(x: real, s: seq<real>, v: real)
    ensures CountAtMost(Insert(x, s), v) == CountAtMost(s, v) + if x <= v then 1 else 0
    ensures CountBelow(Insert(x, s), v) == CountBelow(s, v) + if x < v then 1 else 0
  {
    if s == [] || x <= s[0] {
      assert ([x] + s)[1..] == s;
    } else {
      InsertCounts(x, s[1..], v);
      assert ([s[0]] + Insert(x, s[1..]))[1..] == Insert(x, s[1..]);
    }
  }

  lemma {:induction false} SortedCounts(values: seq<real>, v: real)
    ensures CountAtMost(Sorted(values), v) == CountAtMost(values, v)
    ensures CountBelow(Sorted(values), v) == CountBelow(values, v)
  {
    if values != [] {
      SortedCounts(values[1..], v);
      InsertCounts(values[0], Sorted(values[1..]), v);
    }
  }

  predicate Ascending(s: seq<real>) { forall i, j | 0 <= i < j < |s| :: s[i] <= s[j] }

  lemma {:induction false} InsertAscends(x: real, s: seq<real>)
    requires Ascending(s)
    ensures Ascending(Insert(x, s))
    ensures forall y | y in Insert(x, s) :: y == x || y in s
  {
    if s != [] && x > s[0] {
      InsertAscends(x, s[1..]);
      var r := Insert(x, s[1..]);
      forall i | 0 <= i < |r| ensures s[0] <= r[i] {
        assert r[i] in r;
        if r[i] != x { assert r[i] in s[1..]; }
      }
    }
  }

  lemma {:induction false} SortedAscends(values: seq<real>)
    ensures Ascending(Sorted(values))
  {
    if values != [] {
      SortedAscends(values[1..]);
      InsertAscends(values[0], Sorted(values[1..]));
    }
  }

  lemma {:induction false} CountFront(s: seq<real>, v: real, k: nat)
    requires k <= |s| && forall i | 0 <= i < k :: s[i] <= v
    ensures k <= CountAtMost(s, v) <= |s|
  {
    if s != [] { CountFront(s[1..], v, if k == 0 then 0 else k - 1); }
  }

  lemma {:induction false} CountBack(s: seq<real>, v: real, k: nat)
    requires k <= |s| && forall i | k <= i < |s| :: s[i] >= v
    ensures CountBelow(s, v) <= k
  {
    if s != [] { CountBack(s[1..], v, if k == 0 then 0 else k - 1); }
  }

  lemma CountsAt(values: seq<real>, r: nat)
    requires r < |values|
    ensures var v := Sorted(values)[r];
      r + 1 <= CountAtMost(values, v) <= |values| && CountBelow(values, v) <= r
  {
    var ordered, v := Sorted(values), Sorted(values)[r];
    SortedAscends(values);
    SortedCounts(values, v);
    hide Sorted, CountAtMost, CountBelow;
    assert forall i | 0 <= i < r :: ordered[i] <= v;
    assert forall i | r <= i < |ordered| :: ordered[i] >= v;
    CountFront(ordered, v, r + 1);
    CountBack(ordered, v, r);
  }

  /** The nearest-rank property: at least ceil(f*n) samples are at or below the result and fewer
      than that strictly below. It holds exactly when 1 <= ceil(f*n) <= n, so for every fraction
      in (0, 1]; outside, the clamped rank breaks one half of it. */
  lemma PercentileMeans(values: seq<real>, fraction: real)
    requires values != []
    ensures var v, k := Percentile(values, fraction), Ceil(fraction * |values| as real);
      (CountAtMost(values, v) >= k && CountBelow(values, v) < k) <==> 1 <= k <= |values|
  {
    var r := Rank(|values|, fraction);
    CountsAt(values, r);
    hide Sorted, CountAtMost, CountBelow, Ceil;
    assert Percentile(values, fraction) == Sorted(values)[r];
  }

  lemma FractionInRange(n: nat, fraction: real)
    requires n > 0 && 0.0 < fraction <= 1.0
    ensures 1 <= Ceil(fraction * n as real) <= n
  {
    var x := fraction * n as real;
    assert 0.0 < x <= n as real;
  }

  /** round(x, 3): to the nearest thousandth, ties to even. */
  function Round3(x: real): real { HalfEven(x * 1000.0) as real / 1000.0 }

  lemma RoundBelow(x: real)
    ensures Round3(x) < 500.0 <==> x < 499.9995
  {
    assert HalfEven(x * 1000.0) < 500000 <==> x * 1000.0 < 499999.5;
  }

  // ----- sums over dictionaries -----

  ghost function SumOf<K(!new)>(m: map<K, nat>): nat
    decreases |m|
  {
    if m == map[] then 0 else var k :| k in m; m[k] + SumOf(m - {k})
  }

  lemma {:induction false} SumRemove<K(!new)>(m: map<K, nat>, k: K)
    requires k in m
    ensures SumOf(m) == m[k] + SumOf(m - {k})
    decreases |m|
  {
    var x :| x in m && SumOf(m) == m[x] + SumOf(m - {x});
    if x != k {
      SumRemove(m - {x}, k);
      SumRemove(m - {k}, x);
      assert m - {x} - {k} == m - {k} - {x};
    }
  }

  lemma SumBump<K(!new)>(m: map<K, nat>, n: map<K, nat>, key: K)
    requires m.Keys == n.Keys && key in m
    requires forall k | k in m :: n[k] == m[k] + if k == key then 1 else 0
    ensures SumOf(n) == SumOf(m) + 1
  {
    SumRemove(m, key);
    SumRemove(n, key);
    assert m - {key} == n - {key};
  }

  lemma {:induction false} SumZero<K(!new)>(m: map<K, nat>)
    requires forall k | k in m :: m[k] == 0
    ensures SumOf(m) == 0
    decreases |m|
  {
    if m != map[] {
      var x :| x in m && SumOf(m) == m[x] + SumOf(m - {x});
      SumZero(m - {x});
    }
  }

  ghost function BucketTotals(keys: set<Period>, h: seq<Entry>): map<Period, nat> {
    map k | k in keys :: InBucket(h, k, false)
  }

  lemma {:induction false} BucketsSum(keys: set<Period>, h: seq<Entry>)
    requires forall i | 0 <= i < |h| :: BucketOf(h[i].now) in keys
    ensures SumOf(BucketTotals(keys, h)) == |h|
  {
    hide BucketOf;
    if h == [] {
      SumZero(BucketTotals(keys, h));
    } else {
      var front := h[..|h| - 1];
      BucketsSum(keys, front);
      assert BucketOf(h[|h| - 1].now) in keys;
      SumBump(BucketTotals(keys, front), BucketTotals(keys, h), BucketOf(h[|h| - 1].now));
    }
  }

  /** Every record is in exactly one bucket. */
  lemma BucketsCountEverything(buckets: map<Period, Bucket>, h: seq<Entry>)
    requires BucketsCount(buckets, h)
    ensures SumOf(map k | k in buckets :: buckets[k].total) == |h|
  {
    BucketsSum(buckets.Keys, h);
    assert (map k | k in buckets :: buckets[k].total) == BucketTotals(buckets.Keys, h);
  }

  ghost function RouteTotals(names: set<string>, h: seq<Entry>, kind: Kind): map<string, nat> {
    map n | n in names :: CountKind(h, n, kind)
  }

  lemma {:induction false} RoutesSum(names: set<string>, h: seq<Entry>, kind: Kind)
    requires forall i | 0 <= i < |h| :: h[i].route in names
    ensures SumOf(RouteTotals(names, h, kind)) == CountAll(h, kind)
  {
    if h == [] {
      SumZero(RouteTotals(names, h, kind));
    } else {
      var front, last := h[..|h| - 1], h[|h| - 1];
      RoutesSum(names, front, kind);
      assert last.route in names;
      if last.kind == kind {
        SumBump(RouteTotals(names, front, kind), RouteTotals(names, h, kind), last.route);
      } else {
        assert RouteTotals(names, front, kind) == RouteTotals(names, h, kind);
      }
    }
  }

  /** The six counters sum to the number of records. */
  lemma {:induction false} KindsSum(h: seq<Entry>)
    ensures CountAll(h, Fine) + CountAll(h, Policy) + Errors(h) == |h|
  {
    if h != [] { KindsSum(h[..|h| - 1]); }
  }

  function Errors(h: seq<Entry>): nat {
    CountAll(h, ClientError) + CountAll(h, ServerError) + CountAll(h, EdgeBlock) + CountAll(h, Transport)
  }

  // ----- totals -----

  lemma TotalsStep(names: set<string>, h: seq<Entry>, kind: Kind, name: string)
    requires name !in names
    ensures SumOf(RouteTotals(names + {name}, h, kind)) == CountKind(h, name, kind) + SumOf(RouteTotals(names, h, kind))
  {
    var m := RouteTotals(names + {name}, h, kind);
    SumRemove(m, name);
    assert m - {name} == RouteTotals(names, h, kind);
  }

  function AddKinds(a: map<Kind, nat>, b: map<Kind, nat>): map<Kind, nat> {
    map k | k in a.Keys + b.Keys :: KindCount(a, k) + KindCount(b, k)
  }

  lemma AddKindsAt(a: map<Kind, nat>, b: map<Kind, nat>, kind: Kind)
    ensures KindCount(AddKinds(a, b), kind) == KindCount(a, kind) + KindCount(b, kind)
  {
  }

  /** The loop of evaluate_verdict over the routes counts every record of each kind. */
  method CountTotals(routes: map<string, Route>, ghost h: seq<Entry>) returns (totals: map<Kind, nat>)
    requires RoutesCount(routes, h)
    ensures forall kind :: KindCount(totals, kind) == CountAll(h, kind)
  {
    hide SumOf, CountAll, CountKind, CountStatus, StatusCount, Latencies, AddKinds;
    totals := map[];
    var left := routes.Keys;
    ghost var done: set<string> := {};
    forall kind ensures SumOf(RouteTotals({}, h, kind)) == 0 { SumZero(RouteTotals({}, h, kind)); }
    hide RouteTotals;
    while left != {}
      invariant left + done == routes.Keys && left !! done
      invariant forall kind :: KindCount(totals, kind) == SumOf(RouteTotals(done, h, kind))
      decreases |left|
    {
      var name :| name in left;
      forall kind
        ensures KindCount(AddKinds(totals, routes[name].kinds), kind) == SumOf(RouteTotals(done + {name}, h, kind))
      {
        AddKindsAt(totals, routes[name].kinds, kind);
        TotalsStep(done, h, kind, name);
      }
      totals := AddKinds(totals, routes[name].kinds);
      left := left - {name};
      done := done + {name};
    }
    assert done == routes.Keys;
    forall kind ensures KindCount(totals, kind) == CountAll(h, kind) { RoutesSum(routes.Keys, h, kind); }
  }

  // ----- storms -----

  function MaxInt(a: int, b: int): int { if a >= b then a else b }

  /** five_xx >= max(20, ceil(0.01 * total)) */
  predicate IsStorm(b: Bucket) { b.serverErrors >= MaxInt(STORM_MIN_5XX, Ceil(0.01 * b.total as real)) }

  lemma StormMeans(b: Bucket)
    ensures IsStorm(b) <==> b.serverErrors >= STORM_MIN_5XX && 100 * b.serverErrors >= b.total
  {
    var x := 0.01 * b.total as real;
    assert x <= Ceil(x) as real < x + 1.0;
  }

  method StormBuckets(buckets: map<Period, Bucket>) returns (storms: set<Period>)
    ensures storms == set k | k in buckets && IsStorm(buckets[k])
  {
    hide IsStorm;
    storms := {};
    var left := buckets.Keys;
    while left != {}
      invariant left <= buckets.Keys
      invariant storms == set k | k in buckets && k !in left && IsStorm(buckets[k])
      decreases |left|
    {
      var key :| key in left;
      left := left - {key};
      if IsStorm(buckets[key]) {
        storms := storms + {key};
      }
    }
  }

  /** A ten-second period of the history with at least 20 server errors, one in a hundred or more. */
  ghost predicate StormIn(h: seq<Entry>, key: Period) {
    InBucket(h, key, true) >= STORM_MIN_5XX && 100 * InBucket(h, key, true) >= InBucket(h, key, false)
  }

  lemma {:induction false} OccupiedBucket(h: seq<Entry>, key: Period, errorsOnly: bool)
    requires InBucket(h, key, errorsOnly) > 0
    ensures exists i | 0 <= i < |h| :: BucketOf(h[i].now) == key
  {
    hide BucketOf;
    var front, last := h[..|h| - 1], h[|h| - 1];
    if BucketOf(last.now) != key {
      OccupiedBucket(front, key, errorsOnly);
      var i :| 0 <= i < |front| && BucketOf(front[i].now) == key;
      assert BucketOf(h[i].now) == key;
    }
  }

  lemma StormsInHistory(buckets: map<Period, Bucket>, h: seq<Entry>)
    requires BucketsCount(buckets, h)
    ensures (exists k | k in buckets :: IsStorm(buckets[k])) <==> exists key :: StormIn(h, key)
  {
    hide IsStorm, BucketOf;
    forall k | k in buckets ensures IsStorm(buckets[k]) <==> StormIn(h, k) { StormMeans(buckets[k]); }
    forall key | StormIn(h, key) ensures key in buckets {
      OccupiedBucket(h, key, true);
      var i :| 0 <= i < |h| && BucketOf(h[i].now) == key;
    }
  }

  // ----- the steady window -----

  /** The only route of the workload that reaches the AI. */
  predicate AiRoute(name: string) { name == "ai_message" }

  /** The latencies of the steady window outside the AI, in the order they were recorded. */
  function SteadyLatencies(h: seq<Entry>): seq<real> {
    if h == [] then []
    else
      var last := h[|h| - 1];
      SteadyLatencies(h[..|h| - 1]) + if !AiRoute(last.route) && last.latency.Some? then [last.latency.value] else []
  }

  /** The same by route: the latencies recorded under some names. */
  function Under(h: seq<Entry>, names: set<string>): seq<real> {
    if h == [] then []
    else
      var last := h[|h| - 1];
      Under(h[..|h| - 1], names) + if last.route in names && last.latency.Some? then [last.latency.value] else []
  }

  lemma {:induction false} UnderNone(h: seq<Entry>)
    ensures Under(h, {}) == []
  {
    if h != [] { UnderNone(h[..|h| - 1]); }
  }

  lemma {:induction false} UnderMore(h: seq<Entry>, names: set<string>, name: string)
    requires name !in names
    ensures multiset(Under(h, names + {name})) == multiset(Under(h, names)) + multiset(Latencies(h, name))
  {
    if h != [] { UnderMore(h[..|h| - 1], names, name); }
  }

  lemma {:induction false} UnderIsSteady(h: seq<Entry>, names: set<string>)
    requires forall i | 0 <= i < |h| :: h[i].route in names <==> !AiRoute(h[i].route)
    ensures Under(h, names) == SteadyLatencies(h)
  {
    hide AiRoute;
    if h != [] {
      var front := h[..|h| - 1];
      assert forall i | 0 <= i < |front| :: front[i] == h[i];
      UnderIsSteady(front, names);
    }
  }

  /** The loop of evaluate_verdict over the steady routes: route by route, so in another order. */
  method CollectSteady(routes: map<string, Route>, ghost h: seq<Entry>) returns (latencies: seq<real>)
    requires RoutesCount(routes, h)
    ensures multiset(latencies) == multiset(SteadyLatencies(h))
  {
    hide AiRoute, CountKind, CountStatus, KindCount, StatusCount, SteadyLatencies;
    latencies := [];
    var left := routes.Keys;
    ghost var done: set<string> := {};
    UnderNone(h);
    while left != {}
      invariant left <= routes.Keys && left !! done
      invariant forall name | name in routes && name !in left :: name in done <==> !AiRoute(name)
      invariant multiset(latencies) == multiset(Under(h, done))
      decreases |left|
    {
      var name :| name in left;
      left := left - {name};
      if !AiRoute(name) {
        UnderMore(h, done, name);
        latencies := latencies + routes[name].latencies;
        done := done + {name};
      }
    }
    UnderIsSteady(h, done);
  }

  lemma {:induction false} InsertBag(x: real, s: seq<real>)
    ensures multiset(Insert(x, s)) == multiset(s) + multiset{x}
  {
    if s != [] && x > s[0] {
      InsertBag(x, s[1..]);
      assert s == [s[0]] + s[1..];
    }
  }

  lemma {:induction false} SortedBag(values: seq<real>)
    ensures multiset(Sorted(values)) == multiset(values)
  {
    if values != [] {
      SortedBag(values[1..]);
      InsertBag(values[0], Sorted(values[1..]));
      assert values == [values[0]] + values[1..];
    }
  }

  lemma LeastIsFirst(s: seq<real>, x: real)
    requires Ascending(s) && x in s
    ensures s[0] <= x
  {
    var i :| 0 <= i < |s| && s[i] == x;
  }

  lemma RestOf(s: seq<real>)
    requires s != []
    ensures multiset(s[1..]) == multiset(s) - multiset{s[0]}
    ensures Ascending(s) ==> Ascending(s[1..])
  {
    assert s == [s[0]] + s[1..];
  }

  lemma SameFirst(s: seq<real>, t: seq<real>)
    requires Ascending(s) && Ascending(t) && multiset(s) == multiset(t) && s != []
    ensures t != [] && s[0] == t[0]
  {
    hide Ascending;
    assert |s| == |multiset(s)| == |t|;
    assert s[0] in multiset(t) && t[0] in multiset(s);
    LeastIsFirst(s, t[0]);
    LeastIsFirst(t, s[0]);
  }

  lemma {:induction false} AscendingUnique(s: seq<real>, t: seq<real>)
    requires Ascending(s) && Ascending(t) && multiset(s) == multiset(t)
    ensures s == t
  {
    hide Ascending;
    if s == [] {
      assert |t| == |multiset(s)|;
    } else {
      SameFirst(s, t);
      RestOf(s);
      RestOf(t);
      AscendingUnique(s[1..], t[1..]);
      assert s == [s[0]] + s[1..] && t == [t[0]] + t[1..];
    }
  }

  /** The percentile does not depend on the order of the samples. */
  lemma PercentileIgnoresOrder(a: seq<real>, b: seq<real>, fraction: real)
    requires multiset(a) == multiset(b) && a != []
    ensures b != [] && Percentile(a, fraction) == Percentile(b, fraction)
  {
    assert |a| == |multiset(a)| && |b| == |multiset(b)|;
    SortedBag(a);
    SortedBag(b);
    SortedAscends(a);
    SortedAscends(b);
    hide Sorted;
    AscendingUnique(Sorted(a), Sorted(b));
  }

  /** (steady_end or 0) - steady_start if steady_start else 0: zero counts as absent. */
  function Seconds(start: Option<real>, end: Option<real>): real {
    if start == None || start.value == 0.0 then 0.0
    else (if end.Some? then end.value else 0.0) - start.value
  }

  // ----- the verdict -----

  datatype Status = Pass | Fail | Aborted

  /** What the configuration asks of the steady window. */
  datatype Plan = Plan(planned: real, peakUsers: int)

  predicate FastEnough(latencies: seq<real>) { latencies != [] && Round3(Percentile(latencies, 0.95)) < 500.0 }

  /** The steady window lasted as planned, and there was at least one sample of the signed-in users,
      each of them with everybody (or nobody was needed). */
  predicate HeldAtPeak(log: seq<Moment>, c: Plan) {
    && Seconds(StartOf(log), EndOf(log)) >= c.planned
    && (if Samples(log) == [] then c.peakUsers <= 0
        else forall i | 0 <= i < |Samples(log)| :: Samples(log)[i] >= c.peakUsers)
  }

  /** What PASS claims about everything that happened: fewer than one error in a hundred requests,
      no storm in any ten-second period, a steady window that was fast, long and full enough, and
      never more AI calls at once than the gate allows. */
  ghost predicate Passes(log: seq<Moment>, gate: AiGate.Limits, start: real, calls: seq<AiGate.Call>, c: Plan) {
    var h := Records(log);
    && h != [] && 100 * Errors(h) < |h| && !(exists key :: StormIn(h, key))
    && FastEnough(SteadyLatencies(SteadyRecords(log)))
    && HeldAtPeak(log, c) && NeverOverCap(gate, start, calls)
  }

  /** After every call on the gate, no more AI calls were under way than the configuration allows. */
  ghost predicate NeverOverCap(gate: AiGate.Limits, start: real, calls: seq<AiGate.Call>) {
    forall n | 0 <= n <= |calls| ::
      AiGate.Run(gate, AiGate.Start(gate, start), calls[..n]).inflight <= gate.concurrency
  }

  lemma PeakDecides(gate: AiGate.Limits, start: real, calls: seq<AiGate.Call>)
    ensures AiGate.Run(gate, AiGate.Start(gate, start), calls).peak <= gate.concurrency <==>
      NeverOverCap(gate, start, calls)
  {
    hide AiGate.Run;
    AiGate.PeakIsMaximum(gate, start, calls);
  }

  /** The criterion on AI calls never fails a run whose configuration is in range: the gate keeps
      to its cap, so only a cap below zero can be exceeded. */
  lemma CapIsNeverExceededIff(gate: AiGate.Limits, start: real, calls: seq<AiGate.Call>)
    ensures NeverOverCap(gate, start, calls) <==> gate.concurrency >= 0
  {
    hide AiGate.Run;
    forall n | 0 <= n <= |calls| ensures
      AiGate.Run(gate, AiGate.Start(gate, start), calls[..n]).inflight <= AiGate.Max(gate.concurrency, 0)
    {
      AiGate.CapHolds(gate, start, calls[..n]);
    }
    AiGate.RunNothing(gate, AiGate.Start(gate, start), calls);
  }

  method EvaluateVerdict(m: Metrics, gate: AiGate.Gate, stop: Option<string>, c: Plan) returns (status: Status)
    requires m.Valid() && gate.Valid()
    ensures status == Aborted <==> stop.Some? && stop.value != ""
    ensures status == Pass <==>
      (stop == None || stop.value == "") && Passes(m.log, gate.limits, gate.start, gate.calls, c)
  {
    hide RoutesCount, BucketsCount, IsStorm, StormIn, FastEnough;
    hide CountAll, Records, SteadyRecords, Samples, StartOf, EndOf;
    hide SteadyLatencies, Slid, TrailingTransport, NeverOverCap, AiGate.Run;
    ghost var h := Records(m.log);
    var totals := CountTotals(m.routes, h);
    var errors := KindCount(totals, ClientError) + KindCount(totals, ServerError)
      + KindCount(totals, EdgeBlock) + KindCount(totals, Transport);
    var requests := KindCount(totals, Fine) + KindCount(totals, Policy) + errors;
    KindsSum(h);
    var latencies := CollectSteady(m.steadyRoutes, SteadyRecords(m.log));
    FastIgnoresOrder(latencies, SteadyLatencies(SteadyRecords(m.log)));
    var storms := StormBuckets(m.buckets);
    StormsInHistory(m.buckets, h);
    assert storms != {} <==> exists k | k in m.buckets :: IsStorm(m.buckets[k]) by {
      assert storms != {} ==> exists k :: k in storms;
      assert forall k | k in m.buckets && IsStorm(m.buckets[k]) :: k in storms;
    }
    assert requests == |h| && errors == Errors(h);
    var active := if m.steadyActiveMin == None then 0 else m.steadyActiveMin.value;
    LeastDecides(m.steadyActiveMin, Samples(m.log), c.peakUsers);
    PeakDecides(gate.limits, gate.start, gate.calls);
    if stop.Some? && stop.value != "" { return Aborted; }
    var failed := false;
    if !FastEnough(latencies) { failed := true; }
    if requests == 0 || errors * 100 >= requests { failed := true; }
    if storms != {} { failed := true; }
    if Seconds(m.steadyStart, m.steadyEnd) < c.planned || active < c.peakUsers { failed := true; }
    if gate.inflightMax > gate.limits.concurrency { failed := true; }
    return if failed then Fail else Pass;
  }

  lemma FastIgnoresOrder(a: seq<real>, b: seq<real>)
    requires multiset(a) == multiset(b)
    ensures FastEnough(a) <==> FastEnough(b)
  {
    assert |a| == |multiset(a)| && |b| == |multiset(b)|;
    if a != [] {
      PercentileIgnoresOrder(a, b, 0.95);
    }
  }

  lemma LeastDecides(least: Option<int>, samples: seq<int>, peak: int)
    requires IsLeast(least, samples)
    ensures (if least == None then 0 else least.value) >= peak <==>
      if samples == [] then peak <= 0 else forall i | 0 <= i < |samples| :: samples[i] >= peak
  {
    if least.Some? {
      var i :| 0 <= i < |samples| && samples[i] == least.value;
    }
  }

  lemma {:induction false} CountsGrow(s: seq<real>, v: real, w: real)
    ensures v < w ==> CountAtMost(s, v) <= CountBelow(s, w)
    ensures w <= v ==> CountBelow(s, w) <= CountBelow(s, v)
  {
    if s != [] { CountsGrow(s[1..], v, w); }
  }

  /** The steady window is fast enough exactly when it has samples and at least 95 in 100 of them,
      rounded up, are below half a second by more than half a microsecond, which is what the
      rounding to three places takes away. */
  lemma FastEnoughMeans(latencies: seq<real>)
    ensures FastEnough(latencies) <==>
      latencies != [] && CountBelow(latencies, 499.9995) >= Ceil(0.95 * |latencies| as real)
  {
    if latencies != [] {
      var v := Percentile(latencies, 0.95);
      FractionInRange(|latencies|, 0.95);
      PercentileMeans(latencies, 0.95);
      RoundBelow(v);
      hide Percentile, Ceil, Round3;
      CountsGrow(latencies, v, 499.9995);
    }
  }
}
