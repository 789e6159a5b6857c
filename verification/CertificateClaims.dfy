/** The 72-hour certificate, said of the sample files and of the numbers of the rows. */
module CertificateClaims {
  import opened Prelude
  import opened Certificate

  // ----- which rows -----

  /** The samples of the run with this epoch, in the order of the files. */
  function OursAt(samples: seq<Sample>, epoch: real): seq<Sample> {
    if samples == [] then []
    else (if samples[0].ours && samples[0].epoch == epoch then [samples[0]] else []) + OursAt(samples[1..], epoch)
  }

  predicate Ascending(rows: seq<Sample>) {
    forall i, j | 0 <= i < j < |rows| :: rows[i].epoch <= rows[j].epoch
  }

  lemma OursBehind(x: Sample, rows: seq<Sample>, epoch: real)
    ensures OursAt([x] + rows, epoch) == (if x.ours && x.epoch == epoch then [x] else []) + OursAt(rows, epoch)
  {
    assert ([x] + rows)[1..] == rows;
  }

  lemma {:induction false} InsertKeeps(x: Sample, rows: seq<Sample>, epoch: real)
    requires x.ours
    ensures OursAt(Insert(x, rows), epoch) == (if x.epoch == epoch then [x] else []) + OursAt(rows, epoch)
  {
    if rows == [] || x.epoch <= rows[0].epoch {
      OursBehind(x, rows, epoch);
    } else {
      OursBehind(rows[0], Insert(x, rows[1..]), epoch);
      OursBehind(rows[0], rows[1..], epoch);
      InsertKeeps(x, rows[1..], epoch);
      assert rows == [rows[0]] + rows[1..];
      assert [] + OursAt(rows[1..], epoch) == OursAt(rows[1..], epoch);
      hide OursAt;
    }
  }

  lemma {:induction false} InsertAscends(x: Sample, rows: seq<Sample>)
    requires Ascending(rows)
    ensures Ascending(Insert(x, rows))
    ensures forall y | y in Insert(x, rows) :: y == x || y in rows
  {
    if rows != [] && x.epoch > rows[0].epoch {
      InsertAscends(x, rows[1..]);
      var rest := Insert(x, rows[1..]);
      forall i | 0 <= i < |rest| ensures rows[0].epoch <= rest[i].epoch {
        assert rest[i] in rest;
        if rest[i] != x { assert rest[i] in rows[1..]; }
      }
    }
  }

  /** The rows are the samples of the run, by epoch, and those of one epoch as the files came. */
  lemma {:induction false} RowsAre(samples: seq<Sample>)
    ensures Ascending(Rows(samples)) && forall row | row in Rows(samples) :: row.ours
    ensures forall epoch :: OursAt(Rows(samples), epoch) == OursAt(samples, epoch)
  {
    if samples != [] {
      RowsAre(samples[1..]);
      var rest := Rows(samples[1..]);
      if samples[0].ours {
        InsertAscends(samples[0], rest);
        forall epoch ensures OursAt(Rows(samples), epoch) == OursAt(samples, epoch) {
          InsertKeeps(samples[0], rest, epoch);
        }
      }
    }
  }

  // ----- which rows show what -----

  predicate Answers(row: Sample, name: string) { name in row.http && row.http[name] }

  ghost function AnsweredAt(rows: seq<Sample>, name: string): set<nat> {
    set i | 0 <= i < |rows| && Answers(rows[i], name)
  }

  ghost function OriginAt(rows: seq<Sample>): set<nat> { set i | 0 <= i < |rows| && rows[i].origin.Some? }

  ghost function InventoryAt(rows: seq<Sample>): set<nat> { set i | 0 <= i < |rows| && rows[i].inventory.Some? }

  ghost function BackupAt(rows: seq<Sample>): set<nat> { set i | 0 <= i < |rows| && rows[i].backup.Some? }

  function Requests(rows: seq<Sample>): nat {
    if rows == [] then 0 else (if rows[0].origin.Some? then rows[0].origin.value.total else 0) + Requests(rows[1..])
  }

  function Failures(rows: seq<Sample>): nat {
    if rows == [] then 0 else (if rows[0].origin.Some? then rows[0].origin.value.errors else 0) + Failures(rows[1..])
  }

  predicate FirstInventory(rows: seq<Sample>, i: int) {
    0 <= i < |rows| && rows[i].inventory.Some? && forall k | 0 <= k < i :: rows[k].inventory == None
  }

  predicate LastInventory(rows: seq<Sample>, i: int) {
    0 <= i < |rows| && rows[i].inventory.Some? && forall k | i < k < |rows| :: rows[k].inventory == None
  }

  lemma {:induction false} AnsweredIs(rows: seq<Sample>, name: string)
    ensures |AnsweredAt(rows, name)| == ExpectedCount(rows, name)
  {
    if rows != [] {
      var front := rows[..|rows| - 1];
      AnsweredIs(front, name);
      OneMore(AnsweredAt(front, name), AnsweredAt(rows, name), |front|, Answers(rows[|front|], name));
    }
  }

  lemma {:induction false} OriginIs(rows: seq<Sample>)
    ensures |OriginAt(rows)| == |Origins(rows)|
  {
    if rows != [] {
      var front := rows[..|rows| - 1];
      OriginIs(front);
      OneMore(OriginAt(front), OriginAt(rows), |front|, rows[|front|].origin.Some?);
    }
  }

  lemma {:induction false} InventoryIs(rows: seq<Sample>)
    ensures |InventoryAt(rows)| == |Inventories(rows)|
  {
    if rows != [] {
      var front := rows[..|rows| - 1];
      InventoryIs(front);
      OneMore(InventoryAt(front), InventoryAt(rows), |front|, rows[|front|].inventory.Some?);
    }
  }

  lemma {:induction false} BackupIs(rows: seq<Sample>)
    ensures |BackupAt(rows)| == |Backups(rows)|
  {
    if rows != [] {
      var front := rows[..|rows| - 1];
      BackupIs(front);
      OneMore(BackupAt(front), BackupAt(rows), |front|, rows[|front|].backup.Some?);
    }
  }

  lemma {:induction false} SumsMore(rows: seq<Sample>, row: Sample)
    ensures Requests(rows + [row]) == Requests(rows) + if row.origin.Some? then row.origin.value.total else 0
    ensures Failures(rows + [row]) == Failures(rows) + if row.origin.Some? then row.origin.value.errors else 0
  {
    if rows == [] {
      assert [] + [row] == [row];
    } else {
      assert (rows + [row])[1..] == rows[1..] + [row];
      SumsMore(rows[1..], row);
    }
  }

  lemma {:induction false} SumsAre(rows: seq<Sample>)
    ensures SumOrigins(Origins(rows)) == Origin(Requests(rows), Failures(rows))
  {
    if rows != [] {
      var front, last := rows[..|rows| - 1], rows[|rows| - 1];
      SumsAre(front);
      SumsMore(front, last);
      assert front + [last] == rows;
      hide Requests, Failures;
      var os := Origins(rows);
      if last.origin.Some? {
        assert os[..|os| - 1] == Origins(front);
      } else {
        assert os == Origins(front);
      }
    }
  }

  lemma {:induction false} NoInventory(rows: seq<Sample>)
    ensures Inventories(rows) == [] <==> forall i | 0 <= i < |rows| :: rows[i].inventory == None
  {
    if rows != [] {
      var front, last := rows[..|rows| - 1], rows[|rows| - 1];
      NoInventory(front);
      assert forall i | 0 <= i < |front| :: front[i] == rows[i];
      if last.inventory.Some? {
        assert Inventories(rows)[|Inventories(front)|] == last.inventory.value;
      } else {
        assert Inventories(rows) == Inventories(front);
      }
    }
  }

  lemma FirstInFront(rows: seq<Sample>, i: int)
    requires rows != []
    ensures FirstInventory(rows[..|rows| - 1], i) ==> FirstInventory(rows, i)
  {
  }

  lemma {:induction false} FirstIs(rows: seq<Sample>) returns (i: int)
    requires Inventories(rows) != []
    ensures FirstInventory(rows, i) && rows[i].inventory.value == Inventories(rows)[0]
  {
    var front, n := rows[..|rows| - 1], |rows| - 1;
    NoInventory(front);
    if Inventories(front) == [] {
      i := n;
    } else {
      i := FirstIs(front);
      FirstInFront(rows, i);
    }
  }

  lemma {:induction false} LastIs(rows: seq<Sample>) returns (i: int)
    requires Inventories(rows) != []
    ensures LastInventory(rows, i) && rows[i].inventory.value == Inventories(rows)[|Inventories(rows)| - 1]
  {
    var front, n := rows[..|rows| - 1], |rows| - 1;
    if rows[n].inventory.Some? {
      i := n;
    } else {
      assert Inventories(rows) == Inventories(front);
      i := LastIs(front);
    }
  }

  lemma {:induction false} EachInventory(rows: seq<Sample>)
    ensures (forall k | 0 <= k < |Inventories(rows)| :: Healthy(Inventories(rows)[k])) <==>
      forall i | 0 <= i < |rows| && rows[i].inventory.Some? :: Healthy(rows[i].inventory.value)
  {
    hide Healthy;
    if rows != [] {
      var front, last := rows[..|rows| - 1], rows[|rows| - 1];
      EachInventory(front);
      assert forall i | 0 <= i < |front| :: front[i] == rows[i];
      var ms := Inventories(front);
      if last.inventory.Some? {
        assert Inventories(rows)[|ms|] == last.inventory.value;
        assert forall k | 0 <= k < |ms| :: Inventories(rows)[k] == ms[k];
      } else {
        assert Inventories(rows) == ms;
      }
    }
  }

  predicate RecentBackup(b: Backup) {
    b.localAge.Some? && b.offsiteAge.Some? && b.localAge.value <= 26.0 && b.offsiteAge.value <= 26.0
  }

  predicate BothFresh(b: Backup) { Fresh(b.localAge) && Fresh(b.offsiteAge) }

  lemma {:induction false} EachBackup(rows: seq<Sample>)
    ensures (forall k | 0 <= k < |Backups(rows)| :: BothFresh(Backups(rows)[k])) <==>
      forall i | 0 <= i < |rows| && rows[i].backup.Some? :: RecentBackup(rows[i].backup.value)
  {
    if rows != [] {
      var front, last := rows[..|rows| - 1], rows[|rows| - 1];
      EachBackup(front);
      assert forall i | 0 <= i < |front| :: front[i] == rows[i];
      var bs := Backups(front);
      if last.backup.Some? {
        assert BothFresh(last.backup.value) <==> RecentBackup(last.backup.value);
        hide BothFresh, RecentBackup;
        assert Backups(rows)[|bs|] == last.backup.value;
        assert forall k | 0 <= k < |bs| :: Backups(rows)[k] == bs[k];
      } else {
        assert Backups(rows) == bs;
      }
    }
  }

  // ----- the verdict -----

  /** At least 99 in 100 rows measured the origin, which answered something, and at most 1 in 100 badly. */
  ghost predicate OriginHeld(rows: seq<Sample>) {
    100 * |OriginAt(rows)| >= 99 * |rows| && Requests(rows) > 0 && 100 * Failures(rows) <= Requests(rows)
  }

  /** No inventory shows an unhealthy or killed container, and whatever container the first one names
      is the same in the last one, without a restart in between. */
  ghost predicate ContainersHeld(rows: seq<Sample>) {
    && 100 * |InventoryAt(rows)| >= 99 * |rows|
    && (forall i | 0 <= i < |rows| && rows[i].inventory.Some? :: AllWell(rows[i].inventory.value))
    && SameAtEnds(rows)
  }

  ghost predicate SameAtEnds(rows: seq<Sample>) {
    forall i, j | FirstInventory(rows, i) && LastInventory(rows, j) ::
      SameContainers(rows[i].inventory.value.containers, rows[j].inventory.value.containers)
  }

  predicate AllWell(m: Inventory) {
    !m.unhealthy && forall name | name in m.containers :: !m.containers[name].oomKilled
  }

  predicate SameContainers(first: map<string, Container>, last: map<string, Container>) {
    forall name | name in first ::
      name in last && last[name].startedAt == first[name].startedAt && last[name].restarts <= first[name].restarts
  }

  ghost predicate BackupsHeld(rows: seq<Sample>) {
    && BackupAt(rows) != {} && 100 * |BackupAt(rows)| >= 99 * |rows|
    && forall i | 0 <= i < |rows| && rows[i].backup.Some? :: RecentBackup(rows[i].backup.value)
  }

  ghost predicate CertifiedRows(rows: seq<Sample>, interval: int, hours: real) {
    && |rows| >= 2 && rows[|rows| - 1].epoch - rows[0].epoch >= 3600.0 * hours
    && (forall i | 0 <= i < |rows| - 1 :: rows[i + 1].epoch <= rows[i].epoch + (60 + 2 * interval) as real)
    && (forall name | name in rows[0].http :: 10000000 * |AnsweredAt(rows, name)| >= 9989995 * |rows|)
    && OriginHeld(rows) && ContainersHeld(rows) && BackupsHeld(rows)
  }

  lemma OriginHeldIff(rows: seq<Sample>)
    ensures OriginOk(rows) <==> OriginHeld(rows)
  {
    OriginIs(rows);
    SumsAre(rows);
    hide OriginAt, Origins, SumOrigins, Requests, Failures;
  }

  lemma FirstAndLastAreOne(rows: seq<Sample>, i: int, j: int)
    ensures FirstInventory(rows, i) && FirstInventory(rows, j) ==> i == j
    ensures LastInventory(rows, i) && LastInventory(rows, j) ==> i == j
  {
  }

  lemma SameAtEndsIff(rows: seq<Sample>)
    ensures var ms := Inventories(rows);
      SameAtEnds(rows) <==> (ms != [] ==> Undisturbed(ms[0], ms[|ms| - 1]))
  {
    NoInventory(rows);
    var ms := Inventories(rows);
    if ms != [] {
      var i := FirstIs(rows);
      var j := LastIs(rows);
      forall k, l | FirstInventory(rows, k) && LastInventory(rows, l) ensures k == i && l == j {
        FirstAndLastAreOne(rows, k, i);
        FirstAndLastAreOne(rows, l, j);
      }
      hide FirstInventory, LastInventory, Inventories;
      assert Undisturbed(ms[0], ms[|ms| - 1]) <==>
        SameContainers(rows[i].inventory.value.containers, rows[j].inventory.value.containers);
      hide Undisturbed, SameContainers;
    }
  }

  lemma HealthyIs(m: Inventory)
    ensures Healthy(m) <==> AllWell(m)
  {
  }

  lemma ContainersHeldIff(rows: seq<Sample>)
    ensures ContainersOk(rows) <==> ContainersHeld(rows)
  {
    hide Healthy, AllWell, InventoryAt, Inventories, Undisturbed, SameAtEnds;
    InventoryIs(rows);
    EachInventory(rows);
    SameAtEndsIff(rows);
    forall i | 0 <= i < |rows| && rows[i].inventory.Some? { HealthyIs(rows[i].inventory.value); }
  }

  lemma BackupsHeldIff(rows: seq<Sample>)
    ensures BackupsOk(rows) <==> BackupsHeld(rows)
  {
    BackupIs(rows);
    EachBackup(rows);
    hide BackupAt, Backups, Fresh, RecentBackup;
    assert BackupAt(rows) == {} <==> |BackupAt(rows)| == 0;
  }

  lemma AnsweredEnough(rows: seq<Sample>, name: string)
    requires rows != []
    ensures Available(rows, name) <==> 10000000 * |AnsweredAt(rows, name)| >= 9989995 * |rows|
  {
    AvailableMeans(rows, name);
    AnsweredIs(rows, name);
    hide Available, ExpectedCount, AnsweredAt;
  }

  /** PASS exactly for samples whose rows, see RowsAre, meet the criteria by their numbers. */
  lemma PassIff(samples: seq<Sample>, interval: int, hours: real)
    ensures Passes(Rows(samples), interval, hours) <==> CertifiedRows(Rows(samples), interval, hours)
  {
    var rows := Rows(samples);
    hide Rows;
    OriginHeldIff(rows);
    ContainersHeldIff(rows);
    BackupsHeldIff(rows);
    hide OriginOk, ContainersOk, BackupsOk, OriginHeld, ContainersHeld, BackupsHeld, AnsweredAt;
    if rows != [] {
      forall name ensures Available(rows, name) <==> 10000000 * |AnsweredAt(rows, name)| >= 9989995 * |rows| {
        AnsweredEnough(rows, name);
      }
    }
    hide Available;
  }
}
