/** The 72-hour certificate of scripts/ops/p6_72h_observer.py (certify): what PASS says about the
    samples of one run. */
module Certificate {
  import opened Prelude

  datatype Container = Container(restarts: int, startedAt: string, oomKilled: bool)

  datatype Inventory = Inventory(containers: map<string, Container>, unhealthy: bool)

  datatype Origin = Origin(total: nat, errors: nat)

  datatype Backup = Backup(localAge: Option<real>, offsiteAge: Option<real>)

  /** One sample file; `ours` says that run and schema are the certified ones, a part that was not
      measured is None, and `http` says for each endpoint whether it answered as expected. */
  datatype Sample = Sample(ours: bool, epoch: real, http: map<string, bool>, origin: Option<Origin>,
    inventory: Option<Inventory>, backup: Option<Backup>)

  const AVAILABILITY_MIN := 0.999
  const BACKUP_MAX_AGE_HOURS := 26.0

  // ----- the rows of the run -----

  function Insert(x: Sample, rows: seq<Sample>): seq<Sample> {
    if rows == [] || x.epoch <= rows[0].epoch then [x] + rows else [rows[0]] + Insert(x, rows[1..])
  }

  /** The run's samples sorted by epoch, equal epochs in their given order. */
  function Rows(samples: seq<Sample>): seq<Sample> {
    if samples == [] then []
    else if samples[0].ours then Insert(samples[0], Rows(samples[1..]))
    else Rows(samples[1..])
  }

  // ----- the criteria -----

  function Limit(interval: int): real { (2 * interval + 60) as real }

  function Span(rows: seq<Sample>): real
    requires rows != []
  {
    rows[|rows| - 1].epoch - rows[0].epoch
  }

  predicate GapsOk(rows: seq<Sample>, interval: int) {
    forall i | 0 <= i < |rows| - 1 :: rows[i + 1].epoch - rows[i].epoch <= Limit(interval)
  }

  predicate Expected(row: Sample, name: string) { name in row.http && row.http[name] }

  function ExpectedCount(rows: seq<Sample>, name: string): (n: nat)
    ensures n <= |rows|
  {
    if rows == [] then 0
    else ExpectedCount(rows[..|rows| - 1], name) + if Expected(rows[|rows| - 1], name) then 1 else 0
  }

  /** round(x, 6): to the nearest millionth, ties to even. */
  function Round6(x: real): real { HalfEven(x * 1000000.0) as real / 1000000.0 }

  predicate Available(rows: seq<Sample>, name: string)
    requires rows != []
  {
    Round6(ExpectedCount(rows, name) as real / |rows| as real) >= AVAILABILITY_MIN
  }

  function Origins(rows: seq<Sample>): seq<Origin> {
    if rows == [] then []
    else Origins(rows[..|rows| - 1]) + match rows[|rows| - 1].origin case None => [] case Some(o) => [o]
  }

  function SumOrigins(os: seq<Origin>): Origin {
    if os == [] then Origin(0, 0)
    else
      var front, last := SumOrigins(os[..|os| - 1]), os[|os| - 1];
      Origin(front.total + last.total, front.errors + last.errors)
  }

  function Inventories(rows: seq<Sample>): seq<Inventory> {
    if rows == [] then []
    else Inventories(rows[..|rows| - 1]) + match rows[|rows| - 1].inventory case None => [] case Some(m) => [m]
  }

  function Backups(rows: seq<Sample>): seq<Backup> {
    if rows == [] then []
    else Backups(rows[..|rows| - 1]) + match rows[|rows| - 1].backup case None => [] case Some(b) => [b]
  }

  /** At least 99 of 100 rows have the part. */
  predicate Covers(part: nat, rows: nat) { 100 * part >= 99 * rows }

  predicate OriginOk(rows: seq<Sample>) {
    var os := Origins(rows);
    var sum := SumOrigins(os);
    Covers(|os|, |rows|) && sum.total > 0 && 100 * sum.errors <= sum.total
  }

  /** Every container of the first inventory is in the last one, not recreated and not restarted. */
  predicate Undisturbed(first: Inventory, last: Inventory) {
    forall name | name in first.containers :: name in last.containers &&
      last.containers[name].startedAt == first.containers[name].startedAt &&
      last.containers[name].restarts <= first.containers[name].restarts
  }

  predicate Healthy(m: Inventory) {
    !m.unhealthy && forall name | name in m.containers :: !m.containers[name].oomKilled
  }

  predicate ContainersOk(rows: seq<Sample>) {
    var ms := Inventories(rows);
    Covers(|ms|, |rows|) && (ms != [] ==> Undisturbed(ms[0], ms[|ms| - 1]))
    && forall i | 0 <= i < |ms| :: Healthy(ms[i])
  }

  predicate Fresh(age: Option<real>) { age.Some? && age.value <= BACKUP_MAX_AGE_HOURS }

  predicate BackupsOk(rows: seq<Sample>) {
    var bs := Backups(rows);
    bs != [] && Covers(|bs|, |rows|) && forall i | 0 <= i < |bs| :: Fresh(bs[i].localAge) && Fresh(bs[i].offsiteAge)
  }

  predicate Passes(rows: seq<Sample>, interval: int, hours: real) {
    && |rows| >= 2 && Span(rows) >= hours * 3600.0 && GapsOk(rows, interval)
    && (forall name | name in rows[0].http :: Available(rows, name))
    && OriginOk(rows) && ContainersOk(rows) && BackupsOk(rows)
  }

  // ----- certify -----

  /** certify: the failures are collected one by one, each from its own maximum, share or sum. */
  method Certify(samples: seq<Sample>, interval: int, hours: real) returns (pass: bool)
    ensures pass <==> Passes(Rows(samples), interval, hours)
  {
    var rows := Rows(samples);
    hide Rows, GapsOk, Available, OriginOk, ContainersOk, BackupsOk;
    if |rows| < 2 { return false; }
    var failed := false;
    if Span(rows) / 3600.0 < hours { failed := true; }
    var gaps := WorstGap(rows, interval);
    if gaps { failed := true; }
    var names := rows[0].http.Keys;
    while names != {}
      invariant names <= rows[0].http.Keys
      invariant failed <==>
        || Span(rows) < hours * 3600.0 || !GapsOk(rows, interval)
        || exists n | n in rows[0].http && n !in names :: !Available(rows, n)
      decreases |names|
    {
      var name :| name in names;
      names := names - {name};
      if !Available(rows, name) { failed := true; }
    }
    assert (exists n | n in rows[0].http && n !in names :: !Available(rows, n)) <==>
      !(forall n | n in rows[0].http :: Available(rows, n));
    var containers := CheckContainers(rows);
    var backups := CheckBackups(rows);
    return !failed && OriginOk(rows) && containers && backups;
  }

  /** max_gap > 2 * interval + 60 */
  method WorstGap(rows: seq<Sample>, interval: int) returns (over: bool)
    requires |rows| >= 2
    ensures over <==> !GapsOk(rows, interval)
  {
    var worst := rows[1].epoch - rows[0].epoch;
    var i := 1;
    while i < |rows| - 1
      invariant 1 <= i <= |rows| - 1
      invariant forall k | 0 <= k < i :: rows[k + 1].epoch - rows[k].epoch <= worst
      invariant exists k | 0 <= k < i :: rows[k + 1].epoch - rows[k].epoch == worst
    {
      if rows[i + 1].epoch - rows[i].epoch > worst {
        worst := rows[i + 1].epoch - rows[i].epoch;
      }
      i := i + 1;
    }
    return worst > Limit(interval);
  }

  method CheckContainers(rows: seq<Sample>) returns (ok: bool)
    ensures ok <==> ContainersOk(rows)
  {
    var ms := Inventories(rows);
    hide Inventories, Healthy, Undisturbed;
    ok := Covers(|ms|, |rows|);
    if ms != [] {
      var calm := Compare(ms[0], ms[|ms| - 1]);
      ok := ok && calm;
    }
    var i := 0;
    while i < |ms|
      invariant i <= |ms|
      invariant ok <==>
        Covers(|ms|, |rows|) && (ms != [] ==> Undisturbed(ms[0], ms[|ms| - 1]))
        && forall k | 0 <= k < i :: Healthy(ms[k])
    {
      ok := ok && Healthy(ms[i]);
      i := i + 1;
    }
  }

  function Increase(first: Inventory, last: Inventory, name: string): int
    requires name in first.containers && name in last.containers
  {
    var d := last.containers[name].restarts - first.containers[name].restarts;
    if d > 0 then d else 0
  }

  /** restart_delta, recreated and vanished over the first and last inventory. */
  method Compare(first: Inventory, last: Inventory) returns (calm: bool)
    ensures calm <==> Undisturbed(first, last)
  {
    if !(first.containers.Keys <= last.containers.Keys) {
      ghost var gone :| gone in first.containers && gone !in last.containers;
      return false;
    }
    var delta, recreated, left := 0, false, first.containers.Keys;
    while left != {}
      invariant left <= first.containers.Keys && delta >= 0
      invariant delta == 0 <==>
        forall n | n in first.containers && n !in left :: last.containers[n].restarts <= first.containers[n].restarts
      invariant !recreated <==>
        forall n | n in first.containers && n !in left :: last.containers[n].startedAt == first.containers[n].startedAt
      decreases |left|
    {
      var name :| name in left;
      left := left - {name};
      delta := delta + Increase(first, last, name);
      recreated := recreated || last.containers[name].startedAt != first.containers[name].startedAt;
    }
    return delta == 0 && !recreated;
  }

  /** A missing age counts as 1e9 hours. */
  function Age(age: Option<real>): real { match age case None => 1000000000.0 case Some(a) => a }

  method CheckBackups(rows: seq<Sample>) returns (ok: bool)
    ensures ok <==> BackupsOk(rows)
  {
    var bs := Backups(rows);
    hide Backups;
    if bs == [] { return false; }
    var local, offsite, i := Age(bs[0].localAge), Age(bs[0].offsiteAge), 1;
    while i < |bs|
      invariant 1 <= i <= |bs|
      invariant forall k | 0 <= k < i :: Age(bs[k].localAge) <= local && Age(bs[k].offsiteAge) <= offsite
      invariant exists k | 0 <= k < i :: Age(bs[k].localAge) == local
      invariant exists k | 0 <= k < i :: Age(bs[k].offsiteAge) == offsite
    {
      if Age(bs[i].localAge) > local { local := Age(bs[i].localAge); }
      if Age(bs[i].offsiteAge) > offsite { offsite := Age(bs[i].offsiteAge); }
      i := i + 1;
    }
    return Covers(|bs|, |rows|) && local <= BACKUP_MAX_AGE_HOURS && offsite <= BACKUP_MAX_AGE_HOURS;
  }

  // ----- what PASS means -----

  lemma {:induction false} SpanWithinGaps(rows: seq<Sample>, interval: int)
    requires rows != [] && GapsOk(rows, interval)
    ensures Span(rows) <= (|rows| - 1) as real * Limit(interval)
  {
    if |rows| > 1 {
      var front := rows[..|rows| - 1];
      forall i | 0 <= i < |front| - 1 ensures front[i + 1].epoch - front[i].epoch <= Limit(interval) {
        assert rows[i + 1].epoch - rows[i].epoch <= Limit(interval);
      }
      SpanWithinGaps(front, interval);
      assert rows[|rows| - 2 + 1].epoch - rows[|rows| - 2].epoch <= Limit(interval);
      AddOne((|front| - 1) as real, Limit(interval));
      assert (|rows| - 1) as real == (|front| - 1) as real + 1.0;
    }
  }

  lemma AddOne(k: real, x: real)
    ensures (k + 1.0) * x == k * x + x
  {
  }

  /** A passing run was sampled throughout: consecutive samples are at most 2*interval+60 seconds
      apart, so there are enough of them to reach from end to end, over the required hours. */
  lemma PassCoversTheSpan(rows: seq<Sample>, interval: int, hours: real)
    requires Passes(rows, interval, hours)
    ensures hours * 3600.0 <= Span(rows) <= (|rows| - 1) as real * Limit(interval)
  {
    hide OriginOk, ContainersOk, BackupsOk, Available;
    SpanWithinGaps(rows, interval);
  }

  lemma RoundedShare(x: real)
    ensures Round6(x) >= 0.999 <==> x >= 0.9989995
  {
    var scaled := x * 1000000.0;
    assert Round6(x) >= 0.999 <==> HalfEven(scaled) >= 999000;
    assert x >= 0.9989995 <==> scaled >= 998999.5;
  }

  lemma ShareBound(k: nat, n: nat)
    requires n > 0
    ensures k as real / n as real >= 0.9989995 <==> k as real >= 0.9989995 * n as real
  {
    var x := k as real / n as real;
    assert x * n as real == k as real;
  }

  /** An endpoint passes exactly when its share of expected answers is at least 0.999 up to the
      rounding to six digits, which lets 0.9989995 through. */
  lemma AvailableMeans(rows: seq<Sample>, name: string)
    requires rows != []
    ensures Available(rows, name) <==> ExpectedCount(rows, name) as real >= 0.9989995 * |rows| as real
  {
    var k := ExpectedCount(rows, name);
    RoundedShare(k as real / |rows| as real);
    ShareBound(k, |rows|);
    hide ExpectedCount, Round6;
  }

  // ----- endpoints the first row lacks -----

  function Without(row: Sample, name: string): Sample { row.(http := row.http - {name}) }

  function AllWithout(rows: seq<Sample>, name: string): (r: seq<Sample>)
    ensures |r| == |rows|
    ensures forall i | 0 <= i < |rows| :: r[i] == Without(rows[i], name)
  {
    seq(|rows|, i requires 0 <= i < |rows| => Without(rows[i], name))
  }

  lemma {:induction false} SamePartsWithout(rows: seq<Sample>, name: string)
    ensures Origins(AllWithout(rows, name)) == Origins(rows)
    ensures Inventories(AllWithout(rows, name)) == Inventories(rows)
    ensures Backups(AllWithout(rows, name)) == Backups(rows)
  {
    if rows != [] {
      SamePartsWithout(rows[..|rows| - 1], name);
      assert AllWithout(rows, name)[..|rows| - 1] == AllWithout(rows[..|rows| - 1], name);
    }
  }

  lemma {:induction false} SameCountWithout(rows: seq<Sample>, name: string, other: string)
    requires other != name
    ensures ExpectedCount(AllWithout(rows, name), other) == ExpectedCount(rows, other)
  {
    if rows != [] {
      SameCountWithout(rows[..|rows| - 1], name, other);
      assert AllWithout(rows, name)[..|rows| - 1] == AllWithout(rows[..|rows| - 1], name);
    }
  }

  /** Only the endpoints of the first row are judged: what any other endpoint answered, in any
      row, makes no difference to the verdict. */
  lemma OnlyFirstRowEndpointsCount(rows: seq<Sample>, name: string, interval: int, hours: real)
    requires rows != [] && name !in rows[0].http
    ensures Passes(AllWithout(rows, name), interval, hours) <==> Passes(rows, interval, hours)
  {
    var less := AllWithout(rows, name);
    SamePartsWithout(rows, name);
    assert less[0].http == rows[0].http;
    forall other | other in rows[0].http ensures Available(less, other) <==> Available(rows, other) {
      SameCountWithout(rows, name, other);
    }
    assert GapsOk(less, interval) <==> GapsOk(rows, interval) by { SameGaps(rows, less, interval); }
    hide Available, GapsOk, Origins, Inventories, Backups, Covers, Undisturbed, Healthy, Fresh, SumOrigins;
  }

  lemma SameGaps(a: seq<Sample>, b: seq<Sample>, interval: int)
    requires |a| == |b| && forall i | 0 <= i < |a| :: a[i].epoch == b[i].epoch
    ensures GapsOk(a, interval) <==> GapsOk(b, interval)
  {
    if GapsOk(a, interval) {
      forall i | 0 <= i < |b| - 1 ensures b[i + 1].epoch - b[i].epoch <= Limit(interval) {
        assert a[i + 1].epoch - a[i].epoch <= Limit(interval);
      }
    }
    if GapsOk(b, interval) {
      forall i | 0 <= i < |a| - 1 ensures a[i + 1].epoch - a[i].epoch <= Limit(interval) {
        assert b[i + 1].epoch - b[i].epoch <= Limit(interval);
      }
    }
  }

  // ----- the order of the files and the files of other runs -----

  lemma {:induction false} InsertCommutes(x: Sample, y: Sample, rows: seq<Sample>)
    requires x.epoch != y.epoch
    ensures Insert(x, Insert(y, rows)) == Insert(y, Insert(x, rows))
  {
    if rows != [] {
      InsertCommutes(x, y, rows[1..]);
      assert ([y] + rows)[1..] == rows && ([x] + rows)[1..] == rows;
      assert ([rows[0]] + Insert(y, rows[1..]))[1..] == Insert(y, rows[1..]);
      assert ([rows[0]] + Insert(x, rows[1..]))[1..] == Insert(x, rows[1..]);
    } else {
      assert [x][1..] == [] && [y][1..] == [];
    }
  }

  /** No two samples of the run have the same epoch. */
  predicate DistinctEpochs(samples: seq<Sample>) {
    forall i, j | 0 <= i < j < |samples| && samples[i].ours && samples[j].ours :: samples[i].epoch != samples[j].epoch
  }

  /** The sample in the middle may as well come first. */
  lemma {:induction false} RowsOfMiddle(a: seq<Sample>, x: Sample, b: seq<Sample>)
    requires x.ours ==> forall i | 0 <= i < |a| && a[i].ours :: a[i].epoch != x.epoch
    ensures Rows(a + [x] + b) == if x.ours then Insert(x, Rows(a + b)) else Rows(a + b)
  {
    hide Insert;
    if a == [] {
      assert [] + [x] + b == [x] + b && [] + b == b && ([x] + b)[1..] == b;
    } else {
      assert (a + [x] + b)[1..] == a[1..] + [x] + b && (a + b)[1..] == a[1..] + b;
      RowsOfMiddle(a[1..], x, b);
      if x.ours && a[0].ours { InsertCommutes(a[0], x, Rows(a[1..] + b)); }
    }
  }

  lemma {:induction false} RowsOfPermutation(s: seq<Sample>, t: seq<Sample>)
    requires multiset(s) == multiset(t) && DistinctEpochs(t)
    ensures Rows(s) == Rows(t)
  {
    if s == [] {
      assert |multiset(t)| == 0;
    } else {
      var x := s[0];
      assert s == [x] + s[1..];
      assert x in multiset(s);
      var i :| 0 <= i < |t| && t[i] == x;
      var a, b := t[..i], t[i + 1..];
      assert t == a + [x] + b;
      SameRest(s, t, i);
      DistinctWithout(t, i);
      RowsOfPermutation(s[1..], a + b);
      RowsOfMiddle(a, x, b);
      hide Insert;
    }
  }

  lemma SameRest(s: seq<Sample>, t: seq<Sample>, i: nat)
    requires s != [] && i < |t| && t[i] == s[0] && multiset(s) == multiset(t)
    ensures multiset(s[1..]) == multiset(t[..i] + t[i + 1..])
  {
    assert s == [s[0]] + s[1..];
    assert t == t[..i] + [t[i]] + t[i + 1..];
    assert multiset(s) == multiset{s[0]} + multiset(s[1..]);
    assert multiset(t) == multiset(t[..i]) + multiset{t[i]} + multiset(t[i + 1..]);
    assert multiset(t[..i] + t[i + 1..]) == multiset(t[..i]) + multiset(t[i + 1..]);
    assert multiset(s[1..]) == multiset(s) - multiset{s[0]};
    assert multiset(t[..i] + t[i + 1..]) == multiset(t) - multiset{t[i]};
  }

  lemma DistinctWithout(t: seq<Sample>, i: nat)
    requires i < |t| && DistinctEpochs(t)
    ensures DistinctEpochs(t[..i] + t[i + 1..])
    ensures t[i].ours ==> forall k | 0 <= k < i && t[..i][k].ours :: t[..i][k].epoch != t[i].epoch
  {
    var less := t[..i] + t[i + 1..];
    forall j, k | 0 <= j < k < |less| && less[j].ours && less[k].ours ensures less[j].epoch != less[k].epoch {
      var p, q := if j < i then j else j + 1, if k < i then k else k + 1;
      assert less[j] == t[p] && less[k] == t[q];
    }
  }

  /** The order in which the files are loaded makes no difference when the run's epochs differ. */
  lemma OrderMakesNoDifference(s: seq<Sample>, t: seq<Sample>, interval: int, hours: real)
    requires multiset(s) == multiset(t) && DistinctEpochs(t)
    ensures Passes(Rows(s), interval, hours) <==> Passes(Rows(t), interval, hours)
  {
    RowsOfPermutation(s, t);
  }

  /** Nor do files of other runs or schemas, wherever they stand. */
  lemma OtherRunsMakeNoDifference(a: seq<Sample>, foreign: Sample, b: seq<Sample>, interval: int, hours: real)
    requires !foreign.ours
    ensures Rows(a + [foreign] + b) == Rows(a + b)
    ensures Passes(Rows(a + [foreign] + b), interval, hours) <==> Passes(Rows(a + b), interval, hours)
  {
    RowsOfMiddle(a, foreign, b);
  }
}
