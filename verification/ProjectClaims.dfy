/** What the batch journal demands, said on the fields of its receipts: which journals replay, what
    stands behind a completed batch and behind a release. */
module ProjectClaims {
  import opened Prelude
  import opened ProjectHub

  /** Measured at least as much as the plan asks for; what was not measured counts as nothing. */
  predicate Reached(e: Event, plan: Plan, key: string) {
    key in plan.limits && (if key in e.capacity then e.capacity[key] else 0.0) >= plan.limits[key]
  }

  /** Measured, and at most what the plan allows. */
  predicate Kept(e: Event, plan: Plan, key: string) {
    key in plan.limits && key in e.capacity && e.capacity[key] <= plan.limits[key]
  }

  predicate CapacityShown(plan: Plan, e: Event) {
    && Reached(e, plan, "authenticated_active_users")
    && Reached(e, plan, "projects_per_user_min")
    && Reached(e, plan, "conversations_per_user_min")
    && Reached(e, plan, "durable_jobs_min")
    && Reached(e, plan, "steady_state_minutes_min")
    && Kept(e, plan, "ordinary_read_p95_ms_max")
    && Kept(e, plan, "durable_enqueue_p95_ms_max")
    && Kept(e, plan, "unexpected_error_rate_max")
    && Kept(e, plan, "tenant_leaks_max")
    && Kept(e, plan, "lost_jobs_max")
    && Kept(e, plan, "duplicate_terminal_executions_max")
  }

  /** A completing receipt with everything it has to carry. */
  predicate FullReceipt(plan: Plan, batch: Batch, e: Event) {
    && e.status == Some(Complete) && LowerHex(e.mergeCommit, 40)
    && e.checksPassed && e.checkCount >= 1 && e.verificationPassed && e.evidence != []
    && (batch.requiresDeploy ==> e.deploymentVerified)
    && (batch.id == "FR-09" ==> CapacityShown(plan, e))
  }

  /** The latest receipt of this batch among the first n is a completing one. */
  predicate LatestCompletes(events: seq<Event>, n: nat, id: string)
    requires n <= |events|
  {
    exists k | 0 <= k < n :: events[k].batchId == id && events[k].status == Some(Complete)
      && forall j | k < j < n :: events[j].batchId != id
  }

  /** Receipt n may follow the ones before it: a new identity, a summary, a batch of the plan, and
      for a completion all its evidence after the completion of every prerequisite. */
  predicate ReceiptInOrder(plan: Plan, events: seq<Event>, n: nat)
    requires n < |events|
  {
    var e := events[n];
    && e.eventId != "" && e.summary != "" && e.status.Some?
    && (forall k | 0 <= k < n :: events[k].eventId != e.eventId)
    && Known(plan, e.batchId)
    && (e.status == Some(Complete) ==>
          && FullReceipt(plan, plan.batches[Position(plan, e.batchId)], e)
          && forall d | d in plan.batches[Position(plan, e.batchId)].dependsOn :: LatestCompletes(events, n, d))
  }

  ghost predicate AllInOrder(plan: Plan, events: seq<Event>) {
    forall n | 0 <= n < |events| :: ReceiptInOrder(plan, events, n)
  }

  lemma CommitIs(s: string)
    ensures IsCommit(s) <==> LowerHex(s, 40)
  {
    forall i | 0 <= i < |s| ensures ('0' <= s[i] <= '9' || 'a' <= s[i] <= 'f') <==> s[i] in "0123456789abcdef" {
      HexDigitIs(s[i]);
    }
  }

  lemma MinimaAre(plan: Plan, e: Event)
    ensures (forall i | 0 <= i < |CAPACITY_MINIMA| :: Reached(e, plan, CAPACITY_MINIMA[i])) <==>
      && Reached(e, plan, "authenticated_active_users") && Reached(e, plan, "projects_per_user_min")
      && Reached(e, plan, "conversations_per_user_min") && Reached(e, plan, "durable_jobs_min")
      && Reached(e, plan, "steady_state_minutes_min")
  {
    hide Reached;
    assert CAPACITY_MINIMA[0] == "authenticated_active_users" && CAPACITY_MINIMA[1] == "projects_per_user_min";
    assert CAPACITY_MINIMA[2] == "conversations_per_user_min" && CAPACITY_MINIMA[3] == "durable_jobs_min";
    assert CAPACITY_MINIMA[4] == "steady_state_minutes_min" && |CAPACITY_MINIMA| == 5;
  }

  lemma MaximaAre(plan: Plan, e: Event)
    ensures (forall i | 0 <= i < |CAPACITY_MAXIMA| :: Kept(e, plan, CAPACITY_MAXIMA[i])) <==>
      && Kept(e, plan, "ordinary_read_p95_ms_max") && Kept(e, plan, "durable_enqueue_p95_ms_max")
      && Kept(e, plan, "unexpected_error_rate_max") && Kept(e, plan, "tenant_leaks_max")
      && Kept(e, plan, "lost_jobs_max") && Kept(e, plan, "duplicate_terminal_executions_max")
  {
    hide Kept;
    assert CAPACITY_MAXIMA[0] == "ordinary_read_p95_ms_max" && CAPACITY_MAXIMA[1] == "durable_enqueue_p95_ms_max";
    assert CAPACITY_MAXIMA[2] == "unexpected_error_rate_max" && CAPACITY_MAXIMA[3] == "tenant_leaks_max";
    assert CAPACITY_MAXIMA[4] == "lost_jobs_max" && CAPACITY_MAXIMA[5] == "duplicate_terminal_executions_max";
    assert |CAPACITY_MAXIMA| == 6;
  }

  lemma CapacityIs(plan: Plan, e: Event)
    ensures CapacityMet(plan, e) <==> CapacityShown(plan, e)
  {
    MinimaAre(plan, e);
    MaximaAre(plan, e);
    assert CapacityMet(plan, e) <==>
      (forall i | 0 <= i < |CAPACITY_MINIMA| :: Reached(e, plan, CAPACITY_MINIMA[i])) &&
      (forall i | 0 <= i < |CAPACITY_MAXIMA| :: Kept(e, plan, CAPACITY_MAXIMA[i]));
    hide CapacityMet, Reached, Kept;
  }

  lemma EvidencedIs(plan: Plan, batch: Batch, e: Event)
    requires e.status == Some(Complete)
    ensures Evidenced(plan, batch, e) <==> FullReceipt(plan, batch, e)
  {
    hide CapacityMet, CapacityShown, IsCommit, LowerHex;
    CommitIs(e.mergeCommit);
    CapacityIs(plan, e);
  }

  /** A batch is complete in the replayed states exactly when its latest receipt completes it. */
  lemma {:induction false} StatesAre(plan: Plan, events: seq<Event>, id: string)
    requires Replay(plan, events).Some? && Known(plan, id)
    ensures IsComplete(Replay(plan, events).value, id) <==> LatestCompletes(events, |events|, id)
  {
    IdsAreKnown(plan, id);
    ReplayKnows(plan, events);
    hide Evidenced, BatchIds, Position;
    if events != [] {
      var n := |events| - 1;
      StatesAre(plan, events[..n], id);
      LatestSnoc(events, id);
    } else {
      assert !IsComplete(Initial(plan), id);
    }
  }

  lemma LatestSnoc(events: seq<Event>, id: string)
    requires events != []
    ensures var n := |events| - 1;
      LatestCompletes(events, |events|, id) <==>
        if events[n].batchId == id then events[n].status == Some(Complete) else LatestCompletes(events[..n], n, id)
  {
    var n := |events| - 1;
    LatestInFront(events, n, id);
    if events[n].batchId == id && events[n].status == Some(Complete) {
      assert LatestCompletes(events, |events|, id);
    }
  }

  lemma LatestInFront(events: seq<Event>, n: nat, id: string)
    requires n <= |events|
    ensures LatestCompletes(events[..n], n, id) <==> LatestCompletes(events, n, id)
  {
    assert forall k | 0 <= k < n :: events[..n][k] == events[k];
  }

  /** A journal replays exactly when every receipt of it is in order. */
  lemma {:induction false} ReplayIff(plan: Plan, events: seq<Event>)
    ensures Replay(plan, events).Some? <==> AllInOrder(plan, events)
  {
    hide ReceiptInOrder, AllInOrder;
    if events == [] {
      NothingOutOfOrder(plan);
    } else {
      var n := |events| - 1;
      ReplayIff(plan, events[..n]);
      InOrderSnoc(plan, events);
      hide Applies;
      if AllInOrder(plan, events[..n]) {
        NextIff(plan, events);
      }
    }
  }

  lemma NothingOutOfOrder(plan: Plan)
    ensures AllInOrder(plan, [])
  {
  }

  lemma InOrderSnoc(plan: Plan, events: seq<Event>)
    requires events != []
    ensures var n := |events| - 1;
      AllInOrder(plan, events) <==> AllInOrder(plan, events[..n]) && ReceiptInOrder(plan, events, n)
  {
    hide ReceiptInOrder;
    var n := |events| - 1;
    forall k | 0 <= k < n ensures ReceiptInOrder(plan, events[..n], k) <==> ReceiptInOrder(plan, events, k) {
      OrderInFront(plan, events, n, k);
    }
  }

  lemma OrderInFront(plan: Plan, events: seq<Event>, n: nat, k: nat)
    requires k < n <= |events|
    ensures ReceiptInOrder(plan, events[..n], k) <==> ReceiptInOrder(plan, events, k)
  {
    hide FullReceipt, LatestCompletes, Position, Known;
    assert forall j | 0 <= j <= k :: events[..n][j] == events[j];
    forall d ensures LatestCompletes(events[..n], k, d) <==> LatestCompletes(events, k, d) {
      LatestInFront(events[..n], k, d);
      LatestInFront(events, k, d);
      assert events[..n][..k] == events[..k];
    }
  }

  lemma NextIff(plan: Plan, events: seq<Event>)
    requires events != []
    requires var n := |events| - 1; Replay(plan, events[..n]).Some? && AllInOrder(plan, events[..n])
    ensures var n := |events| - 1; var states := Replay(plan, events[..n]).value;
      events[n].eventId !in Ids(events[..n]) && Applies(plan, states, events[n]) <==> ReceiptInOrder(plan, events, n)
  {
    var n := |events| - 1;
    var states, e := Replay(plan, events[..n]).value, events[n];
    NewIdentityIs(events, n);
    hide Ids, Replay, Evidenced, FullReceipt, LatestCompletes, Position, Known, AllInOrder;
    if Known(plan, e.batchId) {
      if e.status == Some(Complete) { EvidencedIs(plan, BatchOf(plan, e.batchId), e); }
      forall d ensures IsComplete(states, d) <==> LatestCompletes(events, n, d) {
        StateBefore(plan, events, n, d);
      }
    }
  }

  lemma NewIdentityIs(events: seq<Event>, n: nat)
    requires n < |events|
    ensures events[n].eventId !in Ids(events[..n]) <==> forall k | 0 <= k < n :: events[k].eventId != events[n].eventId
  {
    var front := events[..n];
    assert forall k | 0 <= k < n :: front[k] == events[k];
    forall k | 0 <= k < n ensures events[k].eventId in Ids(front) { assert front[k].eventId in Ids(front); }
  }

  lemma StateBefore(plan: Plan, events: seq<Event>, n: nat, d: string)
    requires n <= |events| && Replay(plan, events[..n]).Some? && AllInOrder(plan, events[..n])
    ensures IsComplete(Replay(plan, events[..n]).value, d) <==> LatestCompletes(events, n, d)
  {
    LatestInFront(events, n, d);
    if Known(plan, d) {
      StatesAre(plan, events[..n], d);
    } else {
      ReplayKnows(plan, events[..n]);
      IdsAreKnown(plan, d);
      hide Replay, Known, Position, FullReceipt;
      forall k | 0 <= k < n ensures Known(plan, events[..n][k].batchId) {
        assert ReceiptInOrder(plan, events[..n], k);
      }
    }
  }

  /** Every completed batch of every journal that replays rests on a full receipt, and so does each
      of its prerequisites, earlier in the journal. */
  lemma CompletedRestsOnReceipts(plan: Plan, events: seq<Event>, id: string, n: nat)
    requires Replay(plan, events).Some? && n < |events| && events[n].batchId == id && events[n].status == Some(Complete)
    ensures Known(plan, id) && FullReceipt(plan, BatchOf(plan, id), events[n])
    ensures forall d | d in BatchOf(plan, id).dependsOn :: LatestCompletes(events, n, d)
  {
    ReplayIff(plan, events);
    hide FullReceipt, LatestCompletes, Replay, Position, Known;
    assert ReceiptInOrder(plan, events, n);
  }

  /** RELEASED_VERIFIED: the release and, earlier in the journal, every transitive prerequisite of it
      has a receipt with an exact commit, passed checks, verification, evidence and, where the batch
      is deployed, a verified deployment; FR-09 with the capacity it has to show. */
  lemma ReleaseRestsOnReceipts(plan: Plan, events: seq<Event>, path: seq<string>) returns (n: nat, m: nat)
    requires Released(plan, events) && Chain(plan, path) && path[0] == "FR-25" && |path| > 1
    ensures m < n < |events| && events[n].batchId == "FR-25" && events[m].batchId == path[|path| - 1]
    ensures Known(plan, "FR-25") && FullReceipt(plan, BatchOf(plan, "FR-25"), events[n])
    ensures Known(plan, path[|path| - 1]) && FullReceipt(plan, BatchOf(plan, path[|path| - 1]), events[m])
  {
    n, m := ReleaseRestsOnCompletedPrerequisites(plan, events, path);
    hide FullReceipt, Replay, Position, Known, Evidenced;
    CompletedRestsOnReceipts(plan, events, "FR-25", n);
    CompletedRestsOnReceipts(plan, events, path[|path| - 1], m);
  }

  /** Under a valid plan the capacity shown is never less than 5000 users with 3 projects and 3
      conversations each. */
  lemma ShownCapacityIsEnough(plan: Plan, events: seq<Event>, n: nat)
    requires ValidPlan(plan) && Replay(plan, events).Some? && n < |events|
    requires events[n].batchId == "FR-09" && events[n].status == Some(Complete)
    ensures var c := events[n].capacity;
      && "authenticated_active_users" in c && c["authenticated_active_users"] >= 5000.0
      && "projects_per_user_min" in c && c["projects_per_user_min"] >= 3.0
      && "conversations_per_user_min" in c && c["conversations_per_user_min"] >= 3.0
  {
    CompletedRestsOnReceipts(plan, events, "FR-09", n);
    ProfileIs(plan);
    hide Replay, ValidPlan, Position, Kept;
    assert BatchOf(plan, "FR-09").id == "FR-09";
    assert CapacityShown(plan, events[n]);
  }

  // ----- the plan -----

  predicate OwnedIn(plan: Plan, owners: seq<string>) {
    && |owners| > 0
    && forall k | 0 <= k < |owners| :: exists i | 0 <= i < |plan.batches| :: plan.batches[i].id == owners[k]
  }

  /** Batches after their prerequisites, the baseline of 62 capabilities accounted for, every finding
      owned, four deferred decisions, and a profile of at least 5000 users with 3 projects and 3
      conversations each. */
  predicate PlanInOrder(plan: Plan) {
    && (forall i, j | 0 <= i < j < |plan.batches| :: plan.batches[i].id != plan.batches[j].id)
    && (forall i | 0 <= i < |plan.batches| ::
          forall d | d in plan.batches[i].dependsOn :: exists j | 0 <= j < i :: plan.batches[j].id == d)
    && |plan.capabilities| == 62
    && (forall i, j | 0 <= i < j < 62 :: plan.capabilities[i].id != plan.capabilities[j].id)
    && (forall i | 0 <= i < 62 ::
          if plan.capabilities[i].deferred then plan.capabilities[i].reason != ""
          else OwnedIn(plan, plan.capabilities[i].owners))
    && (forall i | 0 <= i < |plan.findings| :: OwnedIn(plan, plan.findings[i]))
    && plan.deferrals == 4 && ProfileHolds(plan.limits)
  }

  predicate ProfileHolds(limits: map<string, real>) {
    && "authenticated_active_users" in limits && limits["authenticated_active_users"] >= 5000.0
    && "projects_per_user_min" in limits && limits["projects_per_user_min"] >= 3.0
    && "conversations_per_user_min" in limits && limits["conversations_per_user_min"] >= 3.0
  }

  lemma ProfileIs(plan: Plan)
    ensures ProfileOk(plan.limits) <==> ProfileHolds(plan.limits)
  {
    assert CAPACITY_MINIMA[0] == "authenticated_active_users" && CAPACITY_MINIMA[1] == "projects_per_user_min";
    assert CAPACITY_MINIMA[2] == "conversations_per_user_min";
  }

  /** Exactly which plans are valid. */
  lemma PlanIff(plan: Plan)
    ensures ValidPlan(plan) <==> PlanInOrder(plan)
  {
    OrderedIs(plan);
    ProfileIs(plan);
    forall owners ensures Owned(plan, owners) <==> OwnedIn(plan, owners) { }
    hide Ordered, Owned, OwnedIn, ProfileOk, ProfileHolds;
  }

  lemma OrderedIs(plan: Plan)
    ensures Ordered(plan) <==>
      && (forall i, j | 0 <= i < j < |plan.batches| :: plan.batches[i].id != plan.batches[j].id)
      && forall i | 0 <= i < |plan.batches| ::
          forall d | d in plan.batches[i].dependsOn :: exists j | 0 <= j < i :: plan.batches[j].id == d
  {
    forall i, d | 0 <= i < |plan.batches|
      ensures Before(plan, d, i) <==> exists j | 0 <= j < i :: plan.batches[j].id == d
    {
    }
  }

  // ----- samples earn credit once -----

  /** Python's order of texts. */
  predicate TextBefore(a: string, b: string) {
    exists k | 0 <= k < |b| && k <= |a| :: a[..k] == b[..k] && (k == |a| || a[k] < b[k])
  }

  lemma {:induction false} TextBeforeIs(a: string, b: string)
    ensures TextLess(a, b) <==> TextBefore(a, b)
  {
    if a != "" && b != "" {
      TextBeforeIs(a[1..], b[1..]);
      BeforeFromHeads(a, b);
      BeforeToHeads(a, b);
      hide TextBefore;
    } else if b != "" {
      assert a[..0] == b[..0];
    }
  }

  lemma BeforeFromHeads(a: string, b: string)
    requires a != "" && b != ""
    ensures a[0] < b[0] || (a[0] == b[0] && TextBefore(a[1..], b[1..])) ==> TextBefore(a, b)
  {
    if a[0] < b[0] {
      assert a[..0] == b[..0];
    } else if a[0] == b[0] && TextBefore(a[1..], b[1..]) {
      var c, d := a[1..], b[1..];
      var k :| 0 <= k < |d| && k <= |c| && c[..k] == d[..k] && (k == |c| || c[k] < d[k]);
      assert a[..k + 1] == [a[0]] + c[..k] && b[..k + 1] == [b[0]] + d[..k];
    }
  }

  lemma BeforeToHeads(a: string, b: string)
    requires a != "" && b != ""
    ensures TextBefore(a, b) ==> a[0] < b[0] || (a[0] == b[0] && TextBefore(a[1..], b[1..]))
  {
    if TextBefore(a, b) {
      var k :| 0 <= k < |b| && k <= |a| && a[..k] == b[..k] && (k == |a| || a[k] < b[k]);
      if k > 0 {
        assert a[0] == a[..k][0] == b[..k][0] == b[0];
        assert a[1..][..k - 1] == a[..k][1..] == b[..k][1..] == b[1..][..k - 1];
      }
    }
  }

  /** Receipt i claims credit for this sample, taken from 26 October 2026 on. */
  predicate Credits(events: seq<Event>, i: nat, sample: string)
    requires i < |events|
  {
    sample in events[i].samples && !TextBefore(sample, "FR25-NATURAL-20261026T010000000000Z.json")
  }

  /** Receipt k, which is verified, acknowledges this sample for exactly these two receipts. */
  predicate Acknowledges(events: seq<Event>, k: nat, sample: string, a: string, b: string)
    requires k < |events|
  {
    && events[k].verificationPassed && events[k].audit.Some? && events[k].audit.value.sample == sample
    && (events[k].audit.value.eventIds == [a, b] || events[k].audit.value.eventIds == [b, a])
  }

  predicate Audits(events: seq<Event>, k: nat)
    requires k < |events|
  {
    events[k].audit.Some? && events[k].verificationPassed
  }

  /** Acknowledgements name two receipts and agree with each other, and two receipts that claim
      credit for one sample have one. */
  ghost predicate CreditInOrder(events: seq<Event>) {
    && (forall k | 0 <= k < |events| && Audits(events, k) ::
          var a := events[k].audit.value;
          a.wellFormed && |a.eventIds| == 2 && a.eventIds[0] != a.eventIds[1] && "" !in a.eventIds)
    && (forall k, l | 0 <= k < |events| && 0 <= l < |events| && Audits(events, k) && Audits(events, l) ::
          var a := events[k].audit.value;
          events[l].audit.value.sample == a.sample ==>
            Acknowledges(events, l, a.sample, a.eventIds[0], a.eventIds[1]))
    && (forall i, j, sample | 0 <= i < j < |events| && Credits(events, i, sample) && Credits(events, j, sample) ::
          HasAcknowledgement(events, sample, events[i].eventId, events[j].eventId))
  }

  predicate HasAcknowledgement(events: seq<Event>, sample: string, a: string, b: string) {
    exists k | 0 <= k < |events| :: Acknowledges(events, k, sample, a, b)
  }

  /** Every receipt has an identity of its own. */
  predicate OwnIdentities(events: seq<Event>) {
    && (forall i | 0 <= i < |events| :: events[i].eventId != "")
    && (forall i, j | 0 <= i < j < |events| :: events[i].eventId != events[j].eventId)
  }

  lemma IdentitiesAreOwn(plan: Plan, events: seq<Event>)
    requires AllInOrder(plan, events)
    ensures OwnIdentities(events)
  {
    hide FullReceipt, LatestCompletes, Position, Known;
    forall j | 0 <= j < |events|
      ensures events[j].eventId != "" && forall i | 0 <= i < j :: events[i].eventId != events[j].eventId
    {
      assert ReceiptInOrder(plan, events, j);
    }
  }

  lemma PairIds(a: Audit, x: string, y: string)
    requires |a.eventIds| == 2 && x != y
    ensures AuditIds(a) == {x, y} <==> a.eventIds == [x, y] || a.eventIds == [y, x]
  {
    assert AuditIds(a) == {a.eventIds[0], a.eventIds[1]};
    if AuditIds(a) == {x, y} {
      assert x in AuditIds(a) && y in AuditIds(a);
      assert a.eventIds[0] in {x, y} && a.eventIds[1] in {x, y};
    }
  }

  lemma CreditorAt(events: seq<Event>, i: nat, sample: string)
    requires i < |events| && events[i].eventId != ""
    ensures Credits(events, i, sample) ==> events[i].eventId in Creditors(events, sample)
  {
    TextBeforeIs(sample, FENCE);
  }

  lemma CreditorHas(events: seq<Event>, id: string, sample: string) returns (i: nat)
    requires id in Creditors(events, sample)
    ensures i < |events| && events[i].eventId == id && Credits(events, i, sample)
  {
    TextBeforeIs(sample, FENCE);
    i :| 0 <= i < |events| && events[i].eventId != "" && sample in events[i].samples && !TextLess(sample, FENCE)
      && events[i].eventId == id;
  }

  lemma TwoCreditors(events: seq<Event>, i: nat, j: nat, sample: string)
    requires OwnIdentities(events) && i < j < |events| && Credits(events, i, sample) && Credits(events, j, sample)
    requires SamplesOnce(events)
    ensures HasAcknowledgement(events, sample, events[i].eventId, events[j].eventId)
  {
    hide Credits, Creditors, SamplesOnce;
    CreditorAt(events, i, sample);
    CreditorAt(events, j, sample);
    var x, y, all := events[i].eventId, events[j].eventId, Creditors(events, sample);
    MoreThanOne(all, x, y);
    var k := AcknowledgedBy(events, sample);
    PairHolds(events[k].audit.value, all, x, y);
    assert Acknowledges(events, k, sample, x, y);
  }

  lemma AcknowledgedBy(events: seq<Event>, sample: string) returns (k: nat)
    requires SamplesOnce(events) && |Creditors(events, sample)| > 1
    ensures k < |events| && AuditFires(events[k]) && ValidAudit(events[k].audit.value)
    ensures events[k].audit.value.sample == sample && AuditIds(events[k].audit.value) == Creditors(events, sample)
  {
    hide Creditors, AuditIds, ValidAudit;
    assert Acknowledged(events, sample);
    k :| 0 <= k < |events| && AuditFires(events[k]) && events[k].audit.value.sample == sample
      && AuditIds(events[k].audit.value) == Creditors(events, sample);
  }

  lemma PairHolds(a: Audit, all: set<string>, x: string, y: string)
    requires ValidAudit(a) && AuditIds(a) == all && x in all && y in all && x != y
    ensures a.eventIds == [x, y] || a.eventIds == [y, x]
  {
    assert AuditIds(a) == {a.eventIds[0], a.eventIds[1]};
  }

  lemma MoreThanOne(s: set<string>, x: string, y: string)
    requires x in s && y in s && x != y
    ensures |s| > 1
  {
    assert |s - {x}| == |s| - 1 && y in s - {x};
  }

  lemma TwoIn(s: set<string>) returns (x: string, y: string)
    requires |s| > 1
    ensures x in s && y in s && x != y
  {
    x :| x in s;
    assert |s - {x}| == |s| - 1;
    y :| y in s - {x};
  }

  /** Whoever claims credit is one of the two that are acknowledged. */
  lemma OnlyTheTwo(events: seq<Event>, sample: string, i: nat, l: nat, k: nat, y: string)
    requires OwnIdentities(events) && CreditInOrder(events) && i < |events| && l < |events| && k < |events|
    requires Credits(events, i, sample) && Credits(events, l, sample)
    requires Acknowledges(events, k, sample, events[i].eventId, y)
    ensures events[l].eventId in {events[i].eventId, y}
  {
    hide Credits;
    if l != i {
      var m := PairAcknowledged(events, sample, i, l);
      assert Audits(events, k) && Audits(events, m);
      assert Acknowledges(events, m, sample, events[k].audit.value.eventIds[0], events[k].audit.value.eventIds[1]);
    }
  }

  lemma CreditIsAcknowledged(events: seq<Event>, sample: string)
    requires OwnIdentities(events) && CreditInOrder(events) && |Creditors(events, sample)| > 1
    ensures Acknowledged(events, sample)
  {
    var x, y := TwoIn(Creditors(events, sample));
    var i := CreditorHas(events, x, sample);
    var j := CreditorHas(events, y, sample);
    hide Creditors, Credits, OwnIdentities, CreditInOrder;
    var k := PairAcknowledged(events, sample, i, j);
    TheTwoAreAll(events, sample, i, k, y);
    PairIds(events[k].audit.value, x, y);
  }

  lemma PairAcknowledged(events: seq<Event>, sample: string, i: nat, j: nat) returns (k: nat)
    requires CreditInOrder(events) && i < |events| && j < |events| && i != j
    requires Credits(events, i, sample) && Credits(events, j, sample)
    ensures k < |events| && Acknowledges(events, k, sample, events[i].eventId, events[j].eventId)
  {
    hide Credits;
    var a, b := if i < j then i else j, if i < j then j else i;
    assert HasAcknowledgement(events, sample, events[a].eventId, events[b].eventId);
    k :| 0 <= k < |events| && Acknowledges(events, k, sample, events[a].eventId, events[b].eventId);
  }

  lemma TheTwoAreAll(events: seq<Event>, sample: string, i: nat, k: nat, y: string)
    requires OwnIdentities(events) && CreditInOrder(events)
    requires i < |events| && k < |events| && Credits(events, i, sample)
    requires Acknowledges(events, k, sample, events[i].eventId, y)
    requires events[i].eventId in Creditors(events, sample) && y in Creditors(events, sample)
    ensures Creditors(events, sample) == {events[i].eventId, y}
  {
    hide Creditors, Credits, OwnIdentities, CreditInOrder, Acknowledges;
    forall id | id in Creditors(events, sample) ensures id in {events[i].eventId, y} {
      var l := CreditorHas(events, id, sample);
      OnlyTheTwo(events, sample, i, l, k, y);
    }
  }

  /** A journal keeps its samples apart exactly when credit is in order. */
  lemma SamplesIff(events: seq<Event>)
    requires OwnIdentities(events)
    ensures SamplesOnce(events) <==> CreditInOrder(events)
  {
    hide Credits, Creditors;
    if SamplesOnce(events) {
      AuditsAreAcknowledged(events);
      forall i, j, sample | 0 <= i < j < |events| && Credits(events, i, sample) && Credits(events, j, sample)
        ensures HasAcknowledgement(events, sample, events[i].eventId, events[j].eventId)
      {
        TwoCreditors(events, i, j, sample);
      }
    }
    if CreditInOrder(events) {
      AcknowledgedAgree(events);
      forall sample | |Creditors(events, sample)| > 1 ensures Acknowledged(events, sample) {
        CreditIsAcknowledged(events, sample);
      }
    }
  }

  lemma AuditsAreAcknowledged(events: seq<Event>)
    requires AuditsAgree(events)
    ensures forall k, l | 0 <= k < |events| && 0 <= l < |events| && Audits(events, k) && Audits(events, l) ::
      var a := events[k].audit.value;
      |a.eventIds| == 2 && (events[l].audit.value.sample == a.sample ==>
        Acknowledges(events, l, a.sample, a.eventIds[0], a.eventIds[1]))
  {
    forall k, l | 0 <= k < |events| && 0 <= l < |events| && Audits(events, k) && Audits(events, l)
      ensures var a := events[k].audit.value;
        |a.eventIds| == 2 && (events[l].audit.value.sample == a.sample ==>
          Acknowledges(events, l, a.sample, a.eventIds[0], a.eventIds[1]))
    {
      var a, b := events[k].audit.value, events[l].audit.value;
      assert AuditFires(events[k]) && AuditFires(events[l]);
      if a.sample == b.sample {
        assert AuditIds(a) == AuditIds(b);
        PairIds(a, a.eventIds[0], a.eventIds[1]);
        PairIds(b, a.eventIds[0], a.eventIds[1]);
      }
    }
  }

  lemma AcknowledgedAgree(events: seq<Event>)
    requires CreditInOrder(events)
    ensures AuditsAgree(events)
  {
    hide Credits;
    forall i | 0 <= i < |events| && AuditFires(events[i]) ensures ValidAudit(events[i].audit.value) {
      assert Audits(events, i);
    }
    forall i, j | 0 <= i < j < |events| && AuditFires(events[i]) && AuditFires(events[j])
      && events[i].audit.value.sample == events[j].audit.value.sample
      ensures AuditIds(events[i].audit.value) == AuditIds(events[j].audit.value)
    {
      assert Audits(events, i) && Audits(events, j);
      var a, b := events[i].audit.value, events[j].audit.value;
      PairIds(a, a.eventIds[0], a.eventIds[1]);
      PairIds(b, a.eventIds[0], a.eventIds[1]);
    }
  }

  /** Exactly which journals are accepted, by their receipts alone. */
  lemma AcceptedIff(plan: Plan, events: seq<Event>)
    ensures Accepted(plan, events) <==> AllInOrder(plan, events) && CreditInOrder(events)
  {
    hide AllInOrder, CreditInOrder, SamplesOnce, OwnIdentities;
    ReplayIff(plan, events);
    if AllInOrder(plan, events) {
      IdentitiesAreOwn(plan, events);
      SamplesIff(events);
    }
  }
}
