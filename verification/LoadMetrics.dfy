/** What the load run counts (the Metrics of scripts/capacity/p6_mixed_load.py), against the
    list of everything that happened to it. */
module LoadMetrics {
  import opened Prelude

  datatype Kind = Fine | Policy | ClientError | ServerError | EdgeBlock | Transport

  /** One call of record; without a status the request failed in transport. */
  datatype Entry = Entry(route: string, ai: bool, kind: Kind, status: Option<int>, latency: Option<real>, now: real)

  /** RouteStats */
  datatype Route = Route(kinds: map<Kind, nat>, statuses: map<Option<int>, nat>, latencies: seq<real>)

  const UNSEEN := Route(map[], map[], [])

  /** What happens to the metrics: a record, the two ends of the steady window, and the samples
      of the number of signed-in users taken in it. */
  datatype Moment = Recorded(entry: Entry) | SteadyBegins(at: real) | Sampled(signedIn: int) | SteadyEnds(at: real)

  datatype Bucket = Bucket(total: nat, serverErrors: nat)

  const WINDOW_SECONDS := 30.0
  const STORM_BUCKET_SECONDS := 10
  const STORM_MIN_5XX := 20

  /** A ten-second period, the key of a bucket. */
  datatype Period = Period(index: int)

  /** int(now // STORM_BUCKET_SECONDS) */
  function BucketOf(now: real): Period { Period((now / STORM_BUCKET_SECONDS as real).Floor) }

  // ----- what the history says -----

  predicate Forward(h: seq<Entry>) { forall i, j | 0 <= i < j < |h| :: h[i].now <= h[j].now }

  function Recent(h: seq<Entry>, since: real): seq<Entry> {
    if h == [] then []
    else Recent(h[..|h| - 1], since) + if h[|h| - 1].now < since then [] else [h[|h| - 1]]
  }

  /** The length of the run of transport failures at the end. */
  function TrailingTransport(h: seq<Entry>): nat {
    if h == [] || h[|h| - 1].kind != Transport then 0 else 1 + TrailingTransport(h[..|h| - 1])
  }

  function CountKind(h: seq<Entry>, route: string, kind: Kind): nat {
    if h == [] then 0
    else CountKind(h[..|h| - 1], route, kind) + if h[|h| - 1].route == route && h[|h| - 1].kind == kind then 1 else 0
  }

  function CountStatus(h: seq<Entry>, route: string, status: Option<int>): nat {
    if h == [] then 0
    else
      var last := h[|h| - 1];
      CountStatus(h[..|h| - 1], route, status) + if last.route == route && last.status == status then 1 else 0
  }

  function Latencies(h: seq<Entry>, route: string): seq<real> {
    if h == [] then []
    else
      var last := h[|h| - 1];
      Latencies(h[..|h| - 1], route) + if last.route == route && last.latency.Some? then [last.latency.value] else []
  }

  /** The entries of one ten-second period, all of them or the server errors. */
  function InBucket(h: seq<Entry>, key: Period, errorsOnly: bool): nat {
    if h == [] then 0
    else
      var last := h[|h| - 1];
      InBucket(h[..|h| - 1], key, errorsOnly) +
        if BucketOf(last.now) == key && (!errorsOnly || last.kind == ServerError) then 1 else 0
  }

  function CountAll(h: seq<Entry>, kind: Kind): nat {
    if h == [] then 0 else CountAll(h[..|h| - 1], kind) + if h[|h| - 1].kind == kind then 1 else 0
  }

  function KindCount(kinds: map<Kind, nat>, kind: Kind): nat { if kind in kinds then kinds[kind] else 0 }

  function StatusCount(statuses: map<Option<int>, nat>, status: Option<int>): nat {
    if status in statuses then statuses[status] else 0
  }

  // ----- what the log says -----

  /** Everything recorded, in order. */
  function Records(log: seq<Moment>): seq<Entry> {
    if log == [] then []
    else Records(log[..|log| - 1]) + if log[|log| - 1].Recorded? then [log[|log| - 1].entry] else []
  }

  function StartOf(log: seq<Moment>): Option<real> {
    if log == [] then None
    else if log[|log| - 1].SteadyBegins? then Some(log[|log| - 1].at)
    else StartOf(log[..|log| - 1])
  }

  function EndOf(log: seq<Moment>): Option<real> {
    if log == [] then None
    else if log[|log| - 1].SteadyEnds? then Some(log[|log| - 1].at)
    else EndOf(log[..|log| - 1])
  }

  /** Begun and not ended. */
  predicate InSteady(log: seq<Moment>) { StartOf(log).Some? && EndOf(log) == None }

  /** What was recorded inside the steady window. */
  function SteadyRecords(log: seq<Moment>): seq<Entry> {
    if log == [] then []
    else
      var front, last := log[..|log| - 1], log[|log| - 1];
      SteadyRecords(front) + if last.Recorded? && InSteady(front) then [last.entry] else []
  }

  function Samples(log: seq<Moment>): seq<int> {
    if log == [] then []
    else Samples(log[..|log| - 1]) + if log[|log| - 1].Sampled? then [log[|log| - 1].signedIn] else []
  }

  predicate IsLeast(least: Option<int>, samples: seq<int>) {
    match least
    case None => samples == []
    case Some(n) => n in samples && forall i | 0 <= i < |samples| :: n <= samples[i]
  }

  // ----- the metrics object -----

  ghost predicate RoutesCount(routes: map<string, Route>, h: seq<Entry>) {
    && (forall i | 0 <= i < |h| :: h[i].route in routes)
    && (forall name | name in routes :: routes[name].latencies == Latencies(h, name))
    && (forall name, kind | name in routes :: KindCount(routes[name].kinds, kind) == CountKind(h, name, kind))
    && (forall name, status | name in routes ::
          StatusCount(routes[name].statuses, status) == CountStatus(h, name, status))
  }

  predicate BucketsCount(buckets: map<Period, Bucket>, h: seq<Entry>) {
    && (forall i | 0 <= i < |h| :: BucketOf(h[i].now) in buckets)
    && (forall key | key in buckets :: buckets[key] == Bucket(InBucket(h, key, false), InBucket(h, key, true)))
  }

  class Metrics {
    var routes: map<string, Route>
    var steadyRoutes: map<string, Route>
    var buckets: map<Period, Bucket>
    var window: seq<Entry>
    var steadyStart: Option<real>
    var steadyEnd: Option<real>
    var steadyActiveMin: Option<int>
    var edgeBlocks: nat
    var consecutiveTransport: nat
    ghost var log: seq<Moment>

    /** Every field is a function of the log. */
    ghost predicate Valid()
      reads this
    {
      && RoutesCount(routes, Records(log)) && RoutesCount(steadyRoutes, SteadyRecords(log))
      && BucketsCount(buckets, Records(log))
      && window == Slid(Records(log))
      && steadyStart == StartOf(log) && steadyEnd == EndOf(log) && IsLeast(steadyActiveMin, Samples(log))
      && edgeBlocks == CountAll(Records(log), EdgeBlock)
      && consecutiveTransport == TrailingTransport(Records(log))
    }

    constructor ()
      ensures Valid() && log == []
    {
      routes, steadyRoutes, buckets, window := map[], map[], map[], [];
      steadyStart, steadyEnd, steadyActiveMin := None, None, None;
      edgeBlocks, consecutiveTransport := 0, 0;
      log := [];
    }

    method Record(e: Entry)
      requires Valid()
      modifies this
      ensures Valid() && log == old(log) + [Recorded(e)]
    {
      hide RoutesCount, BucketsCount, CountAll, TrailingTransport, Slid, DropOld;
      hide Records, SteadyRecords, StartOf, EndOf, Samples, IsLeast, BucketOf;
      ghost var h := Records(log);
      LastOf(h, e);
      LastMoment(log, Recorded(e));
      routes := CountRoute(routes, e, h);
      if steadyStart.Some? && steadyEnd == None {
        steadyRoutes := CountRoute(steadyRoutes, e, SteadyRecords(log));
      }
      buckets := CountBucket(buckets, e, h);
      if e.kind == EdgeBlock {
        edgeBlocks := edgeBlocks + 1;
      }
      consecutiveTransport := if e.kind == Transport then consecutiveTransport + 1 else 0;
      window := Slide(window, e);
      log := log + [Recorded(e)];
    }

    /** The beginning of the steady stage. */
    method BeginSteady(at: real)
      requires Valid()
      modifies this
      ensures Valid() && log == old(log) + [SteadyBegins(at)]
    {
      LastMoment(log, SteadyBegins(at));
      hide RoutesCount, BucketsCount, CountAll, TrailingTransport, Slid;
      hide Records, SteadyRecords, StartOf, EndOf, Samples, IsLeast;
      steadyStart := Some(at);
      log := log + [SteadyBegins(at)];
    }

    method EndSteady(at: real)
      requires Valid()
      modifies this
      ensures Valid() && log == old(log) + [SteadyEnds(at)]
    {
      LastMoment(log, SteadyEnds(at));
      hide RoutesCount, BucketsCount, CountAll, TrailingTransport, Slid;
      hide Records, SteadyRecords, StartOf, EndOf, Samples, IsLeast;
      steadyEnd := Some(at);
      log := log + [SteadyEnds(at)];
    }

    /** One sample of the number of signed-in users in the steady stage. */
    method SampleActive(signedIn: int)
      requires Valid()
      modifies this
      ensures Valid() && log == old(log) + [Sampled(signedIn)]
    {
      LastMoment(log, Sampled(signedIn));
      hide RoutesCount, BucketsCount, CountAll, TrailingTransport, Slid;
      hide Records, SteadyRecords, StartOf, EndOf, Samples;
      var least := match steadyActiveMin case None => signedIn case Some(n) => if n <= signedIn then n else signedIn;
      LeastOfMore(steadyActiveMin, Samples(log), signedIn, least);
      hide IsLeast;
      steadyActiveMin := Some(least);
      log := log + [Sampled(signedIn)];
    }
  }

  /** The counters of one route, on either of the two sets of routes. */
  method CountRoute(before: map<string, Route>, e: Entry, ghost h: seq<Entry>) returns (routes: map<string, Route>)
    requires RoutesCount(before, h)
    ensures RoutesCount(routes, h + [e])
  {
    hide RoutesCount, KindCount, StatusCount;
    var stats := if e.route in before then before[e.route] else UNSEEN;
    RoutesStep(before, h, e);
    stats := stats.(kinds := stats.kinds[e.kind := KindCount(stats.kinds, e.kind) + 1]);
    stats := stats.(statuses := stats.statuses[e.status := StatusCount(stats.statuses, e.status) + 1]);
    if e.latency.Some? {
      stats := stats.(latencies := stats.latencies + [e.latency.value]);
    }
    assert stats == RouteAfter(before, e);
    routes := before[e.route := stats];
  }

  method CountBucket(before: map<Period, Bucket>, e: Entry, ghost h: seq<Entry>) returns (buckets: map<Period, Bucket>)
    requires BucketsCount(before, h)
    ensures BucketsCount(buckets, h + [e])
  {
    hide BucketOf;
    var key := BucketOf(e.now);
    var bucket := if key in before then before[key] else Bucket(0, 0);
    BucketsStep(before, h, e);
    hide BucketsCount;
    bucket := bucket.(total := bucket.total + 1);
    if e.kind == ServerError {
      bucket := bucket.(serverErrors := bucket.serverErrors + 1);
    }
    buckets := before[key := bucket];
  }

  lemma LastMoment(log: seq<Moment>, m: Moment)
    ensures Records(log + [m]) == if m.Recorded? then Records(log) + [m.entry] else Records(log)
    ensures SteadyRecords(log + [m]) ==
      if m.Recorded? && InSteady(log) then SteadyRecords(log) + [m.entry] else SteadyRecords(log)
    ensures StartOf(log + [m]) == if m.SteadyBegins? then Some(m.at) else StartOf(log)
    ensures EndOf(log + [m]) == if m.SteadyEnds? then Some(m.at) else EndOf(log)
    ensures Samples(log + [m]) == if m.Sampled? then Samples(log) + [m.signedIn] else Samples(log)
  {
    var all := log + [m];
    assert all[..|all| - 1] == log;
  }

  lemma LeastOfMore(least: Option<int>, samples: seq<int>, n: int, next: int)
    requires IsLeast(least, samples)
    requires next == match least case None => n case Some(k) => if k <= n then k else n
    ensures IsLeast(Some(next), samples + [n])
  {
    assert n == (samples + [n])[|samples|];
    if least.Some? {
      var i :| 0 <= i < |samples| && samples[i] == least.value;
      assert (samples + [n])[i] == least.value;
    }
  }

  // ----- the window -----

  /** The rows left after those older than `since` are taken off the front. */
  function DropOld(window: seq<Entry>, since: real): seq<Entry> {
    if window != [] && window[0].now < since then DropOld(window[1..], since) else window
  }

  /** The window after every record of the history. */
  function Slid(h: seq<Entry>): seq<Entry> {
    if h == [] then []
    else DropOld(Slid(h[..|h| - 1]) + [h[|h| - 1]], h[|h| - 1].now - WINDOW_SECONDS)
  }

  /** window.append, then popleft while the first row is older than 30 seconds. */
  method Slide(before: seq<Entry>, e: Entry) returns (window: seq<Entry>)
    ensures window == DropOld(before + [e], e.now - WINDOW_SECONDS)
  {
    window := before + [e];
    while |window| > 0 && window[0].now < e.now - WINDOW_SECONDS
      invariant DropOld(window, e.now - WINDOW_SECONDS) == DropOld(before + [e], e.now - WINDOW_SECONDS)
      decreases |window|
    {
      window := window[1..];
    }
  }

  lemma LastOf(h: seq<Entry>, e: Entry)
    ensures CountAll(h + [e], EdgeBlock) == CountAll(h, EdgeBlock) + if e.kind == EdgeBlock then 1 else 0
    ensures TrailingTransport(h + [e]) == if e.kind == Transport then 1 + TrailingTransport(h) else 0
    ensures Slid(h + [e]) == DropOld(Slid(h) + [e], e.now - WINDOW_SECONDS)
  {
    var all := h + [e];
    assert all[..|all| - 1] == h;
  }

  /** The records of the last 30 seconds, up to and with the latest. */
  function Window(h: seq<Entry>): seq<Entry> {
    if h == [] then [] else Recent(h, h[|h| - 1].now - WINDOW_SECONDS)
  }

  /** The time before which a row is old when record k is made. */
  function Cutoff(h: seq<Entry>, k: nat): real
    requires k < |h|
  {
    h[k].now - WINDOW_SECONDS
  }

  function Skip(h: seq<Entry>, n: nat, since: real): (m: nat)
    requires n <= |h|
    ensures n <= m <= |h| && (forall i | n <= i < m :: h[i].now < since) && (m < |h| ==> h[m].now >= since)
    decreases |h| - n
  {
    if n < |h| && h[n].now < since then Skip(h, n + 1, since) else n
  }

  lemma {:induction false} DropOldSkips(h: seq<Entry>, n: nat, since: real)
    requires n <= |h|
    ensures DropOld(h[n..], since) == h[Skip(h, n, since)..]
    decreases |h| - n
  {
    if n < |h| && h[n].now < since {
      assert h[n..][1..] == h[n + 1..];
      DropOldSkips(h, n + 1, since);
    }
  }

  /** How many rows have been taken off the front after the whole history. */
  function Dropped(h: seq<Entry>): (n: nat)
    ensures n <= |h|
  {
    if h == [] then 0 else Skip(h, Dropped(h[..|h| - 1]), Cutoff(h, |h| - 1))
  }

  lemma {:induction false} SlidIsSuffix(h: seq<Entry>)
    ensures Slid(h) == h[Dropped(h)..]
  {
    if h != [] {
      var front, last := h[..|h| - 1], h[|h| - 1];
      SlidIsSuffix(front);
      assert front[Dropped(front)..] + [last] == h[Dropped(front)..];
      DropOldSkips(h, Dropped(front), Cutoff(h, |h| - 1));
    }
  }

  lemma {:induction false} RecentSplits(h: seq<Entry>, n: nat, since: real)
    requires n <= |h|
    ensures Recent(h, since) == Recent(h[..n], since) + Recent(h[n..], since)
    decreases |h|
  {
    if n == |h| {
      assert h[..n] == h && h[n..] == [];
    } else {
      var front := h[..|h| - 1];
      RecentSplits(front, n, since);
      assert front[..n] == h[..n] && h[n..][..|h[n..]| - 1] == front[n..];
    }
  }

  lemma {:induction false} AllRecent(h: seq<Entry>, since: real)
    requires forall i | 0 <= i < |h| :: h[i].now >= since
    ensures Recent(h, since) == h
  {
    if h != [] {
      AllRecent(h[..|h| - 1], since);
      assert h == h[..|h| - 1] + [h[|h| - 1]];
    }
  }

  lemma {:induction false} NoneRecent(h: seq<Entry>, since: real)
    ensures Recent(h, since) == [] <==> forall i | 0 <= i < |h| :: h[i].now < since
  {
    if h != [] {
      var front := h[..|h| - 1];
      NoneRecent(front, since);
      assert forall i | 0 <= i < |front| :: front[i] == h[i];
    }
  }

  lemma {:induction false} RecentAreRecent(h: seq<Entry>, since: real, k: nat)
    requires k < |Recent(h, since)|
    ensures Recent(h, since)[k].now >= since
  {
    if k < |Recent(h[..|h| - 1], since)| {
      RecentAreRecent(h[..|h| - 1], since, k);
    }
  }

  /** The rows that are gone are old and the rows that are left are not. */
  predicate Sharp(h: seq<Entry>) {
    h != [] ==> forall i | 0 <= i < |h| :: i < Dropped(h) <==> h[i].now < Cutoff(h, |h| - 1)
  }

  lemma SharpMeans(h: seq<Entry>)
    ensures Slid(h) == Window(h) <==> Sharp(h)
  {
    SlidIsSuffix(h);
    if h != [] {
      hide Slid, Recent, Dropped, Sharp;
      if Slid(h) == Window(h) {
        SuffixIsSharp(h);
      } else if Sharp(h) {
        SharpIsSuffix(h);
      }
    }
  }

  lemma SuffixIsSharp(h: seq<Entry>)
    requires h != [] && h[Dropped(h)..] == Recent(h, Cutoff(h, |h| - 1))
    ensures Sharp(h)
  {
    hide Recent, Dropped, Cutoff, Sharp;
    var n, since := Dropped(h), Cutoff(h, |h| - 1);
    forall i | 0 <= i < |h[n..]| ensures h[n..][i].now >= since { RecentAreRecent(h, since, i); }
    AllRecent(h[n..], since);
    RecentSplits(h, n, since);
    NoneRecent(h[..n], since);
    SharpAt(h, n, since);
  }

  lemma SharpIsSuffix(h: seq<Entry>)
    requires h != [] && Sharp(h)
    ensures h[Dropped(h)..] == Recent(h, Cutoff(h, |h| - 1))
  {
    hide Recent, Dropped, Cutoff;
    SplitByAge(h, Dropped(h), Cutoff(h, |h| - 1));
  }

  lemma SplitByAge(h: seq<Entry>, n: nat, since: real)
    requires n <= |h| && (forall i | 0 <= i < n :: h[i].now < since) && (forall i | n <= i < |h| :: h[i].now >= since)
    ensures h[n..] == Recent(h, since)
  {
    hide Recent;
    var front, rest := h[..n], h[n..];
    assert forall i | 0 <= i < |front| :: front[i] == h[i];
    forall i | 0 <= i < |rest| ensures rest[i].now >= since { assert rest[i] == h[n + i]; }
    RecentSplits(h, n, since);
    NoneRecent(front, since);
    AllRecent(rest, since);
  }

  lemma SharpAt(h: seq<Entry>, n: nat, since: real)
    requires h != [] && n == Dropped(h) && since == Cutoff(h, |h| - 1)
    requires forall i | 0 <= i < |h[..n]| :: h[..n][i].now < since
    requires forall i | 0 <= i < |h[n..]| :: h[n..][i].now >= since
    ensures Sharp(h)
  {
    hide Dropped, Cutoff;
    forall i | 0 <= i < |h| ensures i < n <==> h[i].now < since {
      if i < n { assert h[..n][i] == h[i]; } else { assert h[n..][i - n] == h[i]; }
    }
  }

  /** No later row is old while an earlier one is not yet. */
  predicate OldFirst(h: seq<Entry>) {
    forall i, j, k | 0 <= i < j <= k < |h| :: h[i].now < Cutoff(h, k) || h[j].now >= Cutoff(h, k)
  }

  /** A row that was old once is old at every later record. */
  predicate OldStaysOld(h: seq<Entry>) {
    forall i, j, k | 0 <= i < j < k < |h| :: h[i].now < Cutoff(h, j) ==> h[i].now < Cutoff(h, k)
  }

  lemma SharpPrefixes(h: seq<Entry>, k: nat)
    requires k < |h| && Sharp(h[..k + 1])
    ensures forall i | 0 <= i <= k :: i < Dropped(h[..k + 1]) <==> h[i].now < Cutoff(h, k)
  {
    hide Dropped;
    assert forall i | 0 <= i <= k :: h[..k + 1][i] == h[i];
  }

  lemma {:induction false} DroppedGrows(h: seq<Entry>, m: nat, n: nat)
    requires m <= n <= |h|
    ensures Dropped(h[..m]) <= Dropped(h[..n])
  {
    if m < n {
      DroppedGrows(h, m, n - 1);
      DroppedStep(h, n);
      hide Dropped;
    }
  }

  lemma SharpIsOrdered(h: seq<Entry>)
    requires forall n | 0 <= n <= |h| :: Sharp(h[..n])
    ensures OldFirst(h) && OldStaysOld(h)
  {
    hide Sharp, Dropped;
    forall i, j, k | 0 <= i < j <= k < |h| ensures h[i].now < Cutoff(h, k) || h[j].now >= Cutoff(h, k) {
      SharpPrefixes(h, k);
    }
    forall i, j, k | 0 <= i < j < k < |h| && h[i].now < Cutoff(h, j) ensures h[i].now < Cutoff(h, k) {
      SharpPrefixes(h, j);
      SharpPrefixes(h, k);
      DroppedGrows(h, j + 1, k + 1);
    }
  }

  lemma {:induction false} OrderedIsSharp(h: seq<Entry>, n: nat)
    requires OldFirst(h) && OldStaysOld(h) && n <= |h|
    ensures Sharp(h[..n])
  {
    if n > 0 {
      OrderedIsSharp(h, n - 1);
      hide OldFirst, OldStaysOld, Dropped, Sharp, Cutoff;
      DroppedAreOld(h, n);
      LeftAreRecent(h, n);
      SharpFrom(h, n);
    }
  }

  lemma DroppedAreOld(h: seq<Entry>, n: nat)
    requires OldStaysOld(h) && 0 < n <= |h| && Sharp(h[..n - 1])
    ensures forall i | 0 <= i < Dropped(h[..n]) :: h[i].now < Cutoff(h, n - 1)
  {
    hide OldStaysOld, Dropped, Sharp, Cutoff;
    if n > 1 { SharpPrefixes(h, n - 2); }
    DroppedStep(h, n);
    forall i | 0 <= i < Dropped(h[..n]) ensures h[i].now < Cutoff(h, n - 1) {
      if i < Dropped(h[..n - 1]) { StillOld(h, i, n - 2, n - 1); }
    }
  }

  lemma LeftAreRecent(h: seq<Entry>, n: nat)
    requires OldFirst(h) && 0 < n <= |h|
    ensures forall i | Dropped(h[..n]) <= i < n :: h[i].now >= Cutoff(h, n - 1)
  {
    hide OldFirst, Dropped, Cutoff;
    DroppedStep(h, n);
    forall i | Dropped(h[..n]) <= i < n ensures h[i].now >= Cutoff(h, n - 1) {
      if i > Dropped(h[..n]) { NoneOldBehind(h, Dropped(h[..n]), i, n - 1); }
    }
  }

  lemma StillOld(h: seq<Entry>, i: nat, j: nat, k: nat)
    requires OldStaysOld(h) && i <= j < k < |h| && h[i].now < Cutoff(h, j)
    ensures h[i].now < Cutoff(h, k)
  {
  }

  lemma NoneOldBehind(h: seq<Entry>, i: nat, j: nat, k: nat)
    requires OldFirst(h) && i < j <= k < |h| && h[i].now >= Cutoff(h, k)
    ensures h[j].now >= Cutoff(h, k)
  {
  }

  /** Record n - 1 takes old rows off from where the record before it stopped. */
  lemma DroppedStep(h: seq<Entry>, n: nat)
    requires 0 < n <= |h|
    ensures var before, now := Dropped(h[..n - 1]), Dropped(h[..n]);
      && before <= now <= n && before <= n - 1
      && (forall i | before <= i < now :: h[i].now < Cutoff(h, n - 1))
      && (now < n ==> h[now].now >= Cutoff(h, n - 1))
  {
    var all := h[..n];
    assert all[..n - 1] == h[..n - 1];
    var before := Dropped(h[..n - 1]);
    assert Dropped(all) == Skip(all, before, Cutoff(h, n - 1));
    hide Dropped, Skip;
    forall i | before <= i < Dropped(all) ensures h[i].now < Cutoff(h, n - 1) { assert all[i] == h[i]; }
  }

  lemma SharpFrom(h: seq<Entry>, n: nat)
    requires 0 < n <= |h|
    requires forall i | 0 <= i < Dropped(h[..n]) :: h[i].now < Cutoff(h, n - 1)
    requires forall i | Dropped(h[..n]) <= i < n :: h[i].now >= Cutoff(h, n - 1)
    ensures Sharp(h[..n])
  {
    hide Dropped;
    assert forall i | 0 <= i < n :: h[..n][i] == h[i];
  }

  /** The window is right after every record exactly when no record is old before an earlier one
      is, and none becomes recent again: a condition on the clock readings alone. */
  lemma WindowIsRightIff(h: seq<Entry>)
    ensures (forall n | 0 <= n <= |h| :: Slid(h[..n]) == Window(h[..n])) <==> OldFirst(h) && OldStaysOld(h)
  {
    hide Slid, Window, Sharp;
    forall n | 0 <= n <= |h| ensures Slid(h[..n]) == Window(h[..n]) <==> Sharp(h[..n]) { SharpMeans(h[..n]); }
    if OldFirst(h) && OldStaysOld(h) {
      forall n | 0 <= n <= |h| ensures Sharp(h[..n]) { OrderedIsSharp(h, n); }
    } else if forall n | 0 <= n <= |h| :: Slid(h[..n]) == Window(h[..n]) {
      forall n | 0 <= n <= |h| ensures Sharp(h[..n]) { SharpMeans(h[..n]); }
      SharpIsOrdered(h);
    }
  }

  /** With a clock that does not go back, the window after every record is exactly the records of
      the last 30 seconds, in order. */
  lemma WindowIsRecent(h: seq<Entry>)
    requires Forward(h)
    ensures Slid(h) == Window(h)
  {
    WindowIsRightIff(h);
    hide Slid, Window;
    assert h[..|h|] == h;
  }

  function At(route: string, now: real): Entry { Entry(route, false, Fine, Some(200), None, now) }

  /** After the clock went back, a row older than 30 seconds can stay behind a newer one. */
  lemma ClockGoingBackKeepsOldRows(route: string)
    ensures var h := [At(route, 100.0), At(route, 50.0), At(route, 85.0)];
      Slid(h) == h && Window(h) == [h[0], h[2]]
  {
    var a, b, c := At(route, 100.0), At(route, 50.0), At(route, 85.0);
    assert [a, b, c][..2] == [a, b] && [a, b][..1] == [a] && [a][..0] == [];
    assert [a] + [b] == [a, b] && [a, b] + [c] == [a, b, c] && [a] + [c] == [a, c];
    assert Slid([a]) == [a] && Slid([a, b]) == [a, b];
    assert Recent([a], 55.0) == [a] && Recent([a, b], 55.0) == [a];
  }

  // ----- one more record -----

  function RouteAfter(routes: map<string, Route>, e: Entry): Route {
    var was := if e.route in routes then routes[e.route] else UNSEEN;
    Route(was.kinds[e.kind := KindCount(was.kinds, e.kind) + 1],
          was.statuses[e.status := StatusCount(was.statuses, e.status) + 1],
          was.latencies + if e.latency.Some? then [e.latency.value] else [])
  }

  lemma RoutesStep(routes: map<string, Route>, h: seq<Entry>, e: Entry)
    requires RoutesCount(routes, h)
    ensures RoutesCount(routes[e.route := RouteAfter(routes, e)], h + [e])
  {
    hide CountKind, CountStatus, Latencies, KindCount, StatusCount, RouteAfter;
    var more, all := routes[e.route := RouteAfter(routes, e)], h + [e];
    forall i | 0 <= i < |all| ensures all[i].route in more {
      if i < |h| { assert all[i] == h[i]; }
    }
    forall name | name in more
      ensures more[name].latencies == Latencies(all, name)
    {
      OneRouteLatencies(routes, h, e, name);
    }
    forall name, kind | name in more ensures KindCount(more[name].kinds, kind) == CountKind(all, name, kind) {
      OneRouteKind(routes, h, e, name, kind);
    }
    forall name, status | name in more
      ensures StatusCount(more[name].statuses, status) == CountStatus(all, name, status)
    {
      OneRouteStatus(routes, h, e, name, status);
    }
  }

  lemma KindMore(h: seq<Entry>, e: Entry, name: string, kind: Kind)
    ensures CountKind(h + [e], name, kind) ==
      CountKind(h, name, kind) + if e.route == name && e.kind == kind then 1 else 0
  {
    assert (h + [e])[..|h|] == h;
  }

  lemma StatusMore(h: seq<Entry>, e: Entry, name: string, status: Option<int>)
    ensures CountStatus(h + [e], name, status)
      == CountStatus(h, name, status) + if e.route == name && e.status == status then 1 else 0
  {
    assert (h + [e])[..|h|] == h;
  }

  lemma {:induction false} OneRouteKind(routes: map<string, Route>, h: seq<Entry>, e: Entry, name: string, kind: Kind)
    requires RoutesCount(routes, h) && (name in routes || name == e.route)
    ensures KindCount(routes[e.route := RouteAfter(routes, e)][name].kinds, kind) == CountKind(h + [e], name, kind)
  {
    hide CountStatus, StatusCount, Latencies;
    KindMore(h, e, name, kind);
    hide CountKind;
    if name in routes {
      assert KindCount(routes[name].kinds, kind) == CountKind(h, name, kind);
    } else {
      NeverSeen(h, name);
      assert CountKind(h, name, kind) == 0;
    }
  }

  lemma {:induction false} OneRouteStatus(routes: map<string, Route>, h: seq<Entry>, e: Entry, name: string,
                                          status: Option<int>)
    requires RoutesCount(routes, h) && (name in routes || name == e.route)
    ensures StatusCount(routes[e.route := RouteAfter(routes, e)][name].statuses, status) ==
      CountStatus(h + [e], name, status)
  {
    hide CountKind, KindCount, Latencies;
    StatusMore(h, e, name, status);
    hide CountStatus;
    if name in routes {
      assert StatusCount(routes[name].statuses, status) == CountStatus(h, name, status);
    } else {
      NeverSeen(h, name);
      assert CountStatus(h, name, status) == 0;
    }
  }

  lemma {:induction false} OneRouteLatencies(routes: map<string, Route>, h: seq<Entry>, e: Entry, name: string)
    requires RoutesCount(routes, h) && (name in routes || name == e.route)
    ensures routes[e.route := RouteAfter(routes, e)][name].latencies == Latencies(h + [e], name)
  {
    hide CountKind, KindCount, CountStatus, StatusCount;
    assert (h + [e])[..|h|] == h;
    if name in routes {
      assert routes[name].latencies == Latencies(h, name);
    } else {
      NeverSeen(h, name);
    }
  }

  lemma {:induction false} NeverSeen(h: seq<Entry>, route: string)
    requires forall i | 0 <= i < |h| :: h[i].route != route
    ensures Latencies(h, route) == []
    ensures forall kind :: CountKind(h, route, kind) == 0
    ensures forall status :: CountStatus(h, route, status) == 0
  {
    if h != [] { NeverSeen(h[..|h| - 1], route); }
  }

  function BucketAfter(buckets: map<Period, Bucket>, e: Entry): Bucket {
    var was := if BucketOf(e.now) in buckets then buckets[BucketOf(e.now)] else Bucket(0, 0);
    Bucket(was.total + 1, was.serverErrors + if e.kind == ServerError then 1 else 0)
  }

  lemma BucketsStep(buckets: map<Period, Bucket>, h: seq<Entry>, e: Entry)
    requires BucketsCount(buckets, h)
    ensures BucketsCount(buckets[BucketOf(e.now) := BucketAfter(buckets, e)], h + [e])
  {
    hide BucketOf, BucketAfter, InBucket;
    var all, after := h + [e], buckets[BucketOf(e.now) := BucketAfter(buckets, e)];
    forall i | 0 <= i < |all| ensures BucketOf(all[i].now) in after {
      if i < |h| { assert all[i] == h[i]; }
    }
    forall key | key in after ensures after[key] == Bucket(InBucket(all, key, false), InBucket(all, key, true)) {
      InBucketMore(h, e, key);
      if key == BucketOf(e.now) {
        BucketMore(buckets, h, e);
      }
    }
  }

  lemma InBucketMore(h: seq<Entry>, e: Entry, key: Period)
    ensures InBucket(h + [e], key, false) == InBucket(h, key, false) + if BucketOf(e.now) == key then 1 else 0
    ensures InBucket(h + [e], key, true) ==
      InBucket(h, key, true) + if BucketOf(e.now) == key && e.kind == ServerError then 1 else 0
  {
    hide BucketOf;
    assert (h + [e])[..|h|] == h;
  }

  lemma BucketMore(buckets: map<Period, Bucket>, h: seq<Entry>, e: Entry)
    requires BucketsCount(buckets, h)
    ensures var key := BucketOf(e.now);
      BucketAfter(buckets, e) == Bucket(InBucket(h, key, false) + 1,
                                        InBucket(h, key, true) + if e.kind == ServerError then 1 else 0)
  {
    hide BucketOf, InBucket;
    if BucketOf(e.now) !in buckets { EmptyBucket(h, BucketOf(e.now)); }
  }

  lemma {:induction false} EmptyBucket(h: seq<Entry>, key: Period)
    requires forall i | 0 <= i < |h| :: BucketOf(h[i].now) != key
    ensures InBucket(h, key, false) == 0 && InBucket(h, key, true) == 0
  {
    hide BucketOf;
    if h != [] { EmptyBucket(h[..|h| - 1], key); }
  }
}
