/** The evidence-gated batch journal of scripts/project_hub.py: replaying the append-only
    event list over the dependency plan, and recording one more receipt. */
module ProjectHub {
  import opened Prelude

  datatype Status = Planned | InProgress | LocalVerified | Merged | DeploymentFailed | Complete

  datatype Batch = Batch(id: string, dependsOn: seq<string>, requiresDeploy: bool, coldHostDeferred: bool)

  /** One capability of the baseline: deferred with the owner's reason ("" when there is none), or
      owned by its final batches. */
  datatype Capability = Capability(id: string, deferred: bool, reason: string, owners: seq<string>)

  /** `deferralActive`: the owner decision that defers the cold-host test is in force; `limits` is the
      capacity profile; `findings` are the owners of each audit finding; `deferrals` counts the
      owner's deferred decisions. */
  datatype Plan = Plan(batches: seq<Batch>, deferralActive: bool, limits: map<string, real>,
                       capabilities: seq<Capability>, findings: seq<seq<string>>, deferrals: nat)

  const BASELINE_CAPABILITIES := 62
  const OWNER_DEFERRALS := 4

  /** An acknowledged duplicate reference: the sample and the events that cite it. */
  datatype Audit = Audit(sample: string, wellFormed: bool, eventIds: seq<string>)

  /** A receipt.  A missing text is ""; a status outside the known ones is None; `samples`
      are the raw-sample names found in its evidence; `extra` is everything else but "at". */
  datatype Event = Event(
    eventId: string, batchId: string, status: Option<Status>, summary: string,
    mergeCommit: string, checksPassed: bool, checkCount: int, verificationPassed: bool,
    evidence: seq<string>, deploymentVerified: bool, capacity: map<string, real>,
    samples: set<string>, audit: Option<Audit>, extra: string, at: string)

  const CAPACITY_MINIMA := ["authenticated_active_users", "projects_per_user_min", "conversations_per_user_min",
                            "durable_jobs_min", "steady_state_minutes_min"]
  const CAPACITY_MAXIMA := ["ordinary_read_p95_ms_max", "durable_enqueue_p95_ms_max", "unexpected_error_rate_max",
                            "tenant_leaks_max", "lost_jobs_max", "duplicate_terminal_executions_max"]

  // ----- the plan -----

  predicate Known(plan: Plan, id: string) {
    exists i :: 0 <= i < |plan.batches| && plan.batches[i].id == id
  }

  /** What validate_plan establishes. */
  predicate ValidPlan(plan: Plan) {
    && Ordered(plan)
    && CapabilitiesOk(plan)
    && (forall i | 0 <= i < |plan.findings| :: Owned(plan, plan.findings[i]))
    && plan.deferrals == OWNER_DEFERRALS
    && ProfileOk(plan.limits)
  }

  /** There are owners, and each is a batch of the plan. */
  predicate Owned(plan: Plan, owners: seq<string>) {
    owners != [] && forall i | 0 <= i < |owners| :: Known(plan, owners[i])
  }

  predicate CapabilityOk(plan: Plan, c: Capability) {
    if c.deferred then c.reason != "" else Owned(plan, c.owners)
  }

  /** The whole baseline is accounted for. */
  predicate CapabilitiesOk(plan: Plan) {
    && |plan.capabilities| == BASELINE_CAPABILITIES
    && (forall i, j | 0 <= i < j < |plan.capabilities| :: plan.capabilities[i].id != plan.capabilities[j].id)
    && (forall i | 0 <= i < |plan.capabilities| :: CapabilityOk(plan, plan.capabilities[i]))
  }

  predicate AtLeast(limits: map<string, real>, key: string, least: real) { key in limits && limits[key] >= least }

  /** The capacity that has to be shown is not weakened. */
  predicate ProfileOk(limits: map<string, real>) {
    && AtLeast(limits, CAPACITY_MINIMA[0], 5000.0)
    && AtLeast(limits, CAPACITY_MINIMA[1], 3.0)
    && AtLeast(limits, CAPACITY_MINIMA[2], 3.0)
  }

  /** Batches have distinct identities and come after all their prerequisites. */
  predicate Ordered(plan: Plan) {
    && (forall i, j | 0 <= i < j < |plan.batches| :: plan.batches[i].id != plan.batches[j].id)
    && (forall i | 0 <= i < |plan.batches| :: forall d | d in plan.batches[i].dependsOn :: Before(plan, d, i))
  }

  predicate Before(plan: Plan, id: string, i: nat)
    requires i <= |plan.batches|
  {
    exists j :: 0 <= j < i && plan.batches[j].id == id
  }

  method ValidatePlan(plan: Plan) returns (ok: bool)
    ensures ok <==> ValidPlan(plan)
  {
    hide CapabilityOk, Owned, ProfileOk;
    var seen: set<string>, n := {}, 0;
    while n < |plan.batches|
      invariant 0 <= n <= |plan.batches|
      invariant seen == set k | 0 <= k < n :: plan.batches[k].id
      invariant forall i, j | 0 <= i < j < n :: plan.batches[i].id != plan.batches[j].id
      invariant forall i | 0 <= i < n :: forall d | d in plan.batches[i].dependsOn :: Before(plan, d, i)
    {
      var batch := plan.batches[n];
      if batch.id in seen {
        return false;
      }
      if !(forall d | d in batch.dependsOn :: d in seen) {
        ghost var d :| d in batch.dependsOn && d !in seen;
        assert !Before(plan, d, n);
        return false;
      }
      seen, n := seen + {batch.id}, n + 1;
    }
    assert Ordered(plan);
    ok := ValidateCapabilities(plan, seen);
    if !ok { return false; }
    ok := ValidateFindings(plan, seen);
    if !ok { return false; }
    return plan.deferrals == OWNER_DEFERRALS && ProfileOk(plan.limits);
  }

  /** The capability checklist, against the identities of the batches. */
  method ValidateCapabilities(plan: Plan, known: set<string>) returns (ok: bool)
    requires known == set k | 0 <= k < |plan.batches| :: plan.batches[k].id
    ensures ok <==> CapabilitiesOk(plan)
  {
    if |plan.capabilities| != BASELINE_CAPABILITIES { return false; }
    var seen: set<string>, n := {}, 0;
    while n < |plan.capabilities|
      invariant 0 <= n <= |plan.capabilities|
      invariant seen == set k | 0 <= k < n :: plan.capabilities[k].id
      invariant forall i, j | 0 <= i < j < n :: plan.capabilities[i].id != plan.capabilities[j].id
      invariant forall i | 0 <= i < n :: CapabilityOk(plan, plan.capabilities[i])
    {
      var c := plan.capabilities[n];
      KnownOwners(plan, known, c.owners);
      if c.id in seen { return false; }
      if c.deferred {
        if c.reason == "" { return false; }
      } else if c.owners == [] || !(forall id | id in c.owners :: id in known) {
        return false;
      }
      seen, n := seen + {c.id}, n + 1;
    }
    return true;
  }

  method ValidateFindings(plan: Plan, known: set<string>) returns (ok: bool)
    requires known == set k | 0 <= k < |plan.batches| :: plan.batches[k].id
    ensures ok <==> forall i | 0 <= i < |plan.findings| :: Owned(plan, plan.findings[i])
  {
    var n := 0;
    while n < |plan.findings|
      invariant 0 <= n <= |plan.findings|
      invariant forall i | 0 <= i < n :: Owned(plan, plan.findings[i])
    {
      KnownOwners(plan, known, plan.findings[n]);
      if plan.findings[n] == [] || !(forall id | id in plan.findings[n] :: id in known) { return false; }
      n := n + 1;
    }
    return true;
  }

  lemma KnownOwners(plan: Plan, known: set<string>, owners: seq<string>)
    requires known == set k | 0 <= k < |plan.batches| :: plan.batches[k].id
    ensures Owned(plan, owners) <==> owners != [] && forall id | id in owners :: id in known
  {
    forall id ensures id in known <==> Known(plan, id) {
    }
    if forall id | id in owners :: id in known {
      forall i | 0 <= i < |owners| ensures Known(plan, owners[i]) { assert owners[i] in known; }
    }
  }

  function Position(plan: Plan, id: string): (i: nat)
    requires Known(plan, id)
    ensures i < |plan.batches| && plan.batches[i].id == id
    ensures forall j | 0 <= j < i :: plan.batches[j].id != id
  {
    PositionFrom(plan, id, 0)
  }

  function PositionFrom(plan: Plan, id: string, n: nat): (i: nat)
    requires n <= |plan.batches| && Known(plan, id) && forall j | 0 <= j < n :: plan.batches[j].id != id
    ensures i < |plan.batches| && plan.batches[i].id == id
    ensures forall j | 0 <= j < i :: plan.batches[j].id != id
    decreases |plan.batches| - n
  {
    if plan.batches[n].id == id then n else PositionFrom(plan, id, n + 1)
  }

  function BatchOf(plan: Plan, id: string): Batch
    requires Known(plan, id)
  {
    plan.batches[Position(plan, id)]
  }

  lemma DependencyIsEarlier(plan: Plan, id: string, d: string)
    requires ValidPlan(plan) && Known(plan, id) && d in BatchOf(plan, id).dependsOn
    ensures Known(plan, d) && Position(plan, d) < Position(plan, id)
  {
    assert Before(plan, d, Position(plan, id));
  }

  // ----- the states -----

  /** The last receipt of each batch; None while it is only planned. */
  type States = map<string, Option<Event>>

  function BatchIds(plan: Plan): set<string> {
    set i | 0 <= i < |plan.batches| :: plan.batches[i].id
  }

  function Initial(plan: Plan): States {
    map id | id in BatchIds(plan) :: None
  }

  predicate IsComplete(states: States, id: string) {
    id in states && states[id].Some? && states[id].value.status == Some(Complete)
  }

  predicate IsCommit(s: string) {
    |s| == 40 && forall i | 0 <= i < |s| :: '0' <= s[i] <= '9' || 'a' <= s[i] <= 'f'
  }

  function Measured(e: Event, key: string): real {
    if key in e.capacity then e.capacity[key] else 0.0
  }

  predicate CapacityMet(plan: Plan, e: Event) {
    && (forall i | 0 <= i < |CAPACITY_MINIMA| ::
          CAPACITY_MINIMA[i] in plan.limits && Measured(e, CAPACITY_MINIMA[i]) >= plan.limits[CAPACITY_MINIMA[i]])
    && (forall i | 0 <= i < |CAPACITY_MAXIMA| ::
          CAPACITY_MAXIMA[i] in e.capacity && CAPACITY_MAXIMA[i] in plan.limits
          && e.capacity[CAPACITY_MAXIMA[i]] <= plan.limits[CAPACITY_MAXIMA[i]])
  }

  /** The evidence a completing receipt must carry by itself. */
  predicate Evidenced(plan: Plan, batch: Batch, e: Event) {
    && IsCommit(e.mergeCommit)
    && e.checksPassed && e.checkCount >= 1
    && e.verificationPassed && e.evidence != []
    && (batch.requiresDeploy ==> e.deploymentVerified)
    && (batch.id == "FR-09" ==> CapacityMet(plan, e))
  }

  predicate Applies(plan: Plan, states: States, e: Event) {
    && Known(plan, e.batchId) && e.status.Some?
    && e.eventId != "" && e.summary != ""
    && (e.status == Some(Complete) ==>
          && Evidenced(plan, BatchOf(plan, e.batchId), e)
          && forall d | d in BatchOf(plan, e.batchId).dependsOn :: IsComplete(states, d))
  }

  /** apply_event: the new states, or None when it raises. */
  function ApplyEvent(plan: Plan, states: States, e: Event): Option<States> {
    if Applies(plan, states, e) then Some(states[e.batchId := Some(e)]) else None
  }

  function Ids(events: seq<Event>): set<string> {
    set i | 0 <= i < |events| :: events[i].eventId
  }

  /** The states after replaying a journal, or None when the replay raises. */
  function Replay(plan: Plan, events: seq<Event>): Option<States> {
    if events == [] then Some(Initial(plan))
    else
      var n := |events| - 1;
      match Replay(plan, events[..n])
      case None => None
      case Some(states) =>
        if events[n].eventId in Ids(events[..n]) then None else ApplyEvent(plan, states, events[n])
  }

  // ----- raw-sample references -----

  const FENCE := "FR25-NATURAL-20261026T010000000000Z.json"

  predicate TextLess(a: string, b: string) {
    if b == "" then false
    else if a == "" then true
    else a[0] < b[0] || (a[0] == b[0] && TextLess(a[1..], b[1..]))
  }

  /** The events that claim credit for a sample. */
  function Creditors(events: seq<Event>, sample: string): set<string> {
    set i | 0 <= i < |events| && events[i].eventId != "" && sample in events[i].samples && !TextLess(sample, FENCE) ::
      events[i].eventId
  }

  predicate ValidAudit(a: Audit) {
    && a.wellFormed && |a.eventIds| == 2
    && a.eventIds[0] != "" && a.eventIds[1] != "" && a.eventIds[0] != a.eventIds[1]
  }

  predicate AuditFires(e: Event) { e.audit.Some? && e.verificationPassed }

  function AuditIds(a: Audit): set<string> { set i | 0 <= i < |a.eventIds| :: a.eventIds[i] }

  /** Every acknowledgement is well formed and no two of them disagree on a sample. */
  predicate AuditsAgree(events: seq<Event>) {
    && (forall i | 0 <= i < |events| && AuditFires(events[i]) :: ValidAudit(events[i].audit.value))
    && (forall i, j | 0 <= i < j < |events| && AuditFires(events[i]) && AuditFires(events[j])
          && events[i].audit.value.sample == events[j].audit.value.sample ::
          AuditIds(events[i].audit.value) == AuditIds(events[j].audit.value))
  }

  predicate Acknowledged(events: seq<Event>, sample: string) {
    exists i :: 0 <= i < |events| && AuditFires(events[i]) && events[i].audit.value.sample == sample
      && AuditIds(events[i].audit.value) == Creditors(events, sample)
  }

  /** No sample earns credit in two events unless exactly those two are acknowledged. */
  ghost predicate SamplesOnce(events: seq<Event>) {
    AuditsAgree(events) && forall sample :: |Creditors(events, sample)| > 1 ==> Acknowledged(events, sample)
  }

  ghost predicate Accepted(plan: Plan, events: seq<Event>) {
    Replay(plan, events).Some? && SamplesOnce(events)
  }

  /** The batch whose completion is the release. */
  function ReleaseBatch(): string { "FR-25" }

  /** The journal has a current state: it is accepted, and the plan has the batch that the release
      status is read from. */
  ghost predicate Summarised(plan: Plan, events: seq<Event>) {
    Accepted(plan, events) && Known(plan, ReleaseBatch())
  }

  // ----- reading the journal -----

  /** The loop of current_state over the events. */
  method ReplayAll(plan: Plan, events: seq<Event>) returns (r: Option<States>)
    ensures r == Replay(plan, events)
  {
    var states, seen, n := Initial(plan), {}, 0;
    while n < |events|
      invariant 0 <= n <= |events|
      invariant Replay(plan, events[..n]) == Some(states) && seen == Ids(events[..n])
    {
      var e := events[n];
      ReplayStep(plan, events, n);
      if e.eventId in seen || !Applies(plan, states, e) {
        ReplayRefused(plan, events, n + 1);
        return None;
      }
      states, seen, n := states[e.batchId := Some(e)], seen + {e.eventId}, n + 1;
    }
    assert events[..n] == events;
    return Some(states);
  }

  lemma ReplayStep(plan: Plan, events: seq<Event>, n: nat)
    requires n < |events| && Replay(plan, events[..n]).Some?
    ensures Replay(plan, events[..n + 1]) ==
      if events[n].eventId in Ids(events[..n]) then None
      else ApplyEvent(plan, Replay(plan, events[..n]).value, events[n])
    ensures Ids(events[..n + 1]) == Ids(events[..n]) + {events[n].eventId}
  {
    hide Applies;
    assert events[..n + 1][..n] == events[..n];
    forall id | id in Ids(events[..n]) ensures id in Ids(events[..n + 1]) {
      var i :| 0 <= i < n && events[..n][i].eventId == id;
      assert events[..n + 1][i].eventId == id;
    }
    assert events[..n + 1][n].eventId == events[n].eventId;
  }

  lemma {:induction false} ReplayRefused(plan: Plan, events: seq<Event>, n: nat)
    requires n <= |events| && Replay(plan, events[..n]) == None
    ensures Replay(plan, events) == None
    decreases |events|
  {
    if n == |events| {
      assert events[..n] == events;
    } else {
      var front := events[..|events| - 1];
      assert front[..n] == events[..n];
      ReplayRefused(plan, front, n);
    }
  }

  /** The exceptions of the first n events' audits, by sample. */
  predicate Registers(events: seq<Event>, n: nat, exceptions: map<string, set<string>>)
    requires n <= |events|
  {
    && (forall i | 0 <= i < n && AuditFires(events[i]) ::
      events[i].audit.value.sample in exceptions
      && exceptions[events[i].audit.value.sample] == AuditIds(events[i].audit.value))
    && (forall sample | sample in exceptions ::
      exists i :: 0 <= i < n && AuditFires(events[i]) && events[i].audit.value.sample == sample)
  }

  /** Whether the audit of one more event is well formed and agrees with the exceptions so far. */
  predicate Agrees(a: Audit, exceptions: map<string, set<string>>) {
    ValidAudit(a) && (a.sample in exceptions ==> exceptions[a.sample] == AuditIds(a))
  }

  lemma OneMoreAudit(events: seq<Event>, n: nat, exceptions: map<string, set<string>>)
    requires n < |events| && AuditsAgree(events[..n]) && Registers(events, n, exceptions) && AuditFires(events[n])
    ensures Agrees(events[n].audit.value, exceptions) ==> AuditsAgree(events[..n + 1])
    ensures !Agrees(events[n].audit.value, exceptions) ==> !AuditsAgree(events)
  {
    hide ValidAudit, AuditIds;
    var audit, more := events[n].audit.value, events[..n + 1];
    assert forall i | 0 <= i < n :: more[i] == events[..n][i] == events[i];
    if audit.sample in exceptions {
      var i :| 0 <= i < n && AuditFires(events[i]) && events[i].audit.value.sample == audit.sample;
    }
  }

  lemma OneMoreRegistered(events: seq<Event>, n: nat, exceptions: map<string, set<string>>)
    requires n < |events| && Registers(events, n, exceptions)
    requires AuditFires(events[n]) ==> Agrees(events[n].audit.value, exceptions)
    ensures var audit := events[n].audit;
      Registers(events, n + 1,
          if AuditFires(events[n]) then exceptions[audit.value.sample := AuditIds(audit.value)] else exceptions)
  {
    hide ValidAudit, AuditIds;
  }

  lemma OneMoreSilent(events: seq<Event>, n: nat)
    requires n < |events| && AuditsAgree(events[..n]) && !AuditFires(events[n])
    ensures AuditsAgree(events[..n + 1])
  {
    hide ValidAudit, AuditIds;
    assert forall i | 0 <= i < n :: events[..n + 1][i] == events[..n][i];
  }

  method CollectExceptions(events: seq<Event>) returns (r: Option<map<string, set<string>>>)
    ensures match r
      case Some(exceptions) => AuditsAgree(events) && Registers(events, |events|, exceptions)
      case None => !AuditsAgree(events)
  {
    var exceptions: map<string, set<string>>, n := map[], 0;
    assert Registers(events, 0, exceptions) && AuditsAgree(events[..0]);
    hide Registers, AuditsAgree, ValidAudit, AuditIds;
    while n < |events|
      invariant 0 <= n <= |events|
      invariant AuditsAgree(events[..n]) && Registers(events, n, exceptions)
    {
      if AuditFires(events[n]) {
        var audit := events[n].audit.value;
        OneMoreAudit(events, n, exceptions);
        if !ValidAudit(audit) || (audit.sample in exceptions && exceptions[audit.sample] != AuditIds(audit)) {
          return None;
        }
        OneMoreRegistered(events, n, exceptions);
        exceptions := exceptions[audit.sample := AuditIds(audit)];
      } else {
        OneMoreSilent(events, n);
        OneMoreRegistered(events, n, exceptions);
      }
      n := n + 1;
    }
    assert events[..n] == events;
    return Some(exceptions);
  }

  /** validate_fr25_sample_references */
  method ValidateSamples(events: seq<Event>) returns (ok: bool)
    ensures ok <==> SamplesOnce(events)
  {
    hide AuditsAgree, ValidAudit;
    var collected := CollectExceptions(events);
    if collected.None? { return false; }
    var exceptions := collected.value;
    var cited := set i, sample | 0 <= i < |events| && sample in events[i].samples :: sample;
    ok := forall sample | sample in cited ::
      |Creditors(events, sample)| > 1 ==> sample in exceptions && exceptions[sample] == Creditors(events, sample);
    if ok {
      forall sample | |Creditors(events, sample)| > 1 ensures Acknowledged(events, sample) {
        CreditedIsCited(events, sample);
        var i :| 0 <= i < |events| && AuditFires(events[i]) && events[i].audit.value.sample == sample;
      }
    } else {
      var sample :| sample in cited && |Creditors(events, sample)| > 1
        && !(sample in exceptions && exceptions[sample] == Creditors(events, sample));
      assert !Acknowledged(events, sample);
    }
  }

  lemma CreditedIsCited(events: seq<Event>, sample: string)
    requires |Creditors(events, sample)| > 1
    ensures exists i :: 0 <= i < |events| && sample in events[i].samples
  {
    var id :| id in Creditors(events, sample);
  }

  /** current_state: the states, or None when the journal is refused or the plan has no batch to
      read the release status from. */
  method CurrentState(plan: Plan, events: seq<Event>) returns (r: Option<States>)
    ensures r == if Summarised(plan, events) then Replay(plan, events) else None
  {
    hide Replay, SamplesOnce, BatchIds, ReleaseBatch;
    r := ReplayAll(plan, events);
    if r.Some? {
      var once := ValidateSamples(events);
      ReplayKnows(plan, events);
      IdsAreKnown(plan, ReleaseBatch());
      if !once || ReleaseBatch() !in r.value {
        r := None;
      }
    }
  }

  /** The replayed states are those of the batches of the plan. */
  lemma {:induction false} ReplayKnows(plan: Plan, events: seq<Event>)
    ensures Replay(plan, events).Some? ==> Replay(plan, events).value.Keys == BatchIds(plan)
  {
    if events != [] {
      ReplayKnows(plan, events[..|events| - 1]);
      IdsAreKnown(plan, events[|events| - 1].batchId);
      hide BatchIds, Evidenced;
    }
  }

  lemma IdsAreKnown(plan: Plan, id: string)
    ensures id in BatchIds(plan) <==> Known(plan, id)
  {
  }

  // ----- recording a receipt -----

  /** Equal except for the time it was recorded. */
  predicate SameReceipt(a: Event, b: Event) { a.(at := "") == b.(at := "") }

  /** The journal has the receipt's identity, and never with its content. */
  predicate Conflicts(events: seq<Event>, e: Event) {
    && e.eventId in Ids(events)
    && forall i | 0 <= i < |events| && events[i].eventId == e.eventId :: !SameReceipt(events[i], e)
  }

  function Stamped(e: Event, now: string): Event { if e.at == "" then e.(at := now) else e }

  /** The journal after offering a receipt to it. */
  ghost function Recorded(plan: Plan, events: seq<Event>, e: Event, now: string): seq<Event> {
    if e.eventId in Ids(events) || !Summarised(plan, events + [Stamped(e, now)]) then events
    else events + [Stamped(e, now)]
  }

  class Journal {
    const plan: Plan
    var events: seq<Event>

    constructor (plan: Plan)
      ensures this.plan == plan && events == []
    {
      this.plan, events := plan, [];
    }

    /** record: Ok(true) when the receipt is new and kept, Ok(false) when it was already there. */
    method Record(e: Event, now: string) returns (r: Result<bool>)
      modifies this
      ensures !ValidPlan(plan) ==> r.Err? && events == old(events)
      ensures ValidPlan(plan) ==> events == Recorded(plan, old(events), e, now)
      ensures r == Ok(true) <==> ValidPlan(plan) && events != old(events)
      ensures r == Ok(false) ==> Accepted(plan, events) && exists i :: 0 <= i < |events| && SameReceipt(events[i], e)
      ensures Conflicts(old(events), e) ==> r.Err?
    {
      var valid := ValidatePlan(plan);
      if !valid {
        return Err("invalid plan");
      }
      var n := 0;
      while n < |events|
        invariant 0 <= n <= |events| && events == old(events)
        invariant forall i | 0 <= i < n :: events[i].eventId != e.eventId
      {
        if events[n].eventId == e.eventId {
          if !SameReceipt(events[n], e) {
            return Err("same event id with conflicting content");
          }
          var current := CurrentState(plan, events);
          return if current.Some? then Ok(false) else Err("the journal does not replay");
        }
        n := n + 1;
      }
      var candidate := events + [Stamped(e, now)];
      var states := CurrentState(plan, candidate);
      if states == None {
        return Err("the journal would not replay");
      }
      events := candidate;
      assert candidate != old(events);
      return Ok(true);
    }
  }

  /** The journal that a sequence of offered receipts builds, each with the time it was offered. */
  ghost function Build(plan: Plan, offered: seq<(Event, string)>): seq<Event> {
    if offered == [] then []
    else
      var n := |offered| - 1;
      Recorded(plan, Build(plan, offered[..n]), offered[n].0, offered[n].1)
  }

  /** Whatever is offered, the journal always replays without error. */
  lemma {:induction false} BuiltIsAccepted(plan: Plan, offered: seq<(Event, string)>)
    ensures Accepted(plan, Build(plan, offered))
  {
    if offered == [] {
      assert SamplesOnce([]);
    } else {
      BuiltIsAccepted(plan, offered[..|offered| - 1]);
    }
  }

  /** The journal only grows by appending. */
  lemma {:induction false} BuiltOnlyGrows(plan: Plan, offered: seq<(Event, string)>, n: nat)
    requires n <= |offered|
    ensures Build(plan, offered[..n]) <= Build(plan, offered)
    decreases |offered|
  {
    if n == |offered| {
      assert offered[..n] == offered;
    } else {
      var front := offered[..|offered| - 1];
      assert front[..n] == offered[..n];
      BuiltOnlyGrows(plan, front, n);
    }
  }

  /** Offering a receipt again, at any time, changes nothing. */
  lemma RecordingTwiceChangesNothing(plan: Plan, events: seq<Event>, e: Event, now: string, later: string)
    ensures Recorded(plan, Recorded(plan, events, e, now), e, later) == Recorded(plan, events, e, now)
  {
    var once := Recorded(plan, events, e, now);
    if once != events {
      assert once[|events|].eventId == e.eventId;
    } else if e.eventId !in Ids(events) {
      TimeIsIgnored(plan, events, Stamped(e, now), Stamped(e, later));
    }
  }

  /** Whether a journal is accepted does not depend on the recorded time of its last receipt. */
  lemma TimeIsIgnored(plan: Plan, events: seq<Event>, a: Event, b: Event)
    requires SameReceipt(a, b)
    ensures Accepted(plan, events + [a]) <==> Accepted(plan, events + [b])
  {
    TimeIsIgnoredReplay(plan, events, a, b);
    if SamplesOnce(events + [a]) { SamplesIgnoreTime(events, a, b); }
    if SamplesOnce(events + [b]) { SamplesIgnoreTime(events, b, a); }
  }

  lemma TimeIsIgnoredReplay(plan: Plan, events: seq<Event>, a: Event, b: Event)
    requires SameReceipt(a, b)
    ensures Replay(plan, events + [a]).Some? <==> Replay(plan, events + [b]).Some?
  {
    assert (events + [a])[..|events|] == events == (events + [b])[..|events|];
    FieldsAgree(a, b);
  }

  lemma FieldsAgree(a: Event, b: Event)
    requires SameReceipt(a, b)
    ensures a.eventId == b.eventId && a.batchId == b.batchId && a.status == b.status && a.summary == b.summary
    ensures a.mergeCommit == b.mergeCommit && a.checksPassed == b.checksPassed && a.checkCount == b.checkCount
    ensures a.verificationPassed == b.verificationPassed && a.evidence == b.evidence
    ensures a.deploymentVerified == b.deploymentVerified && a.capacity == b.capacity
    ensures a.samples == b.samples && a.audit == b.audit
  {
  }

  lemma SamplesIgnoreTime(events: seq<Event>, a: Event, b: Event)
    requires SameReceipt(a, b) && SamplesOnce(events + [a])
    ensures SamplesOnce(events + [b])
  {
    FieldsAgree(a, b);
    var x, y := events + [a], events + [b];
    assert forall i | 0 <= i < |x| :: x[i].eventId == y[i].eventId && x[i].samples == y[i].samples;
    assert forall i | 0 <= i < |x| :: x[i].audit == y[i].audit && x[i].verificationPassed == y[i].verificationPassed;
    forall sample ensures Creditors(x, sample) == Creditors(y, sample) {
      CreditorsAgree(x, y, sample);
      CreditorsAgree(y, x, sample);
    }
    forall sample | |Creditors(y, sample)| > 1 ensures Acknowledged(y, sample) {
      assert Acknowledged(x, sample);
      var i :| 0 <= i < |x| && AuditFires(x[i]) && x[i].audit.value.sample == sample
        && AuditIds(x[i].audit.value) == Creditors(x, sample);
      assert AuditFires(y[i]);
    }
  }

  lemma CreditorsAgree(x: seq<Event>, y: seq<Event>, sample: string)
    requires |x| == |y| && forall i | 0 <= i < |x| :: x[i].eventId == y[i].eventId && x[i].samples == y[i].samples
    ensures Creditors(x, sample) <= Creditors(y, sample)
  {
    forall id | id in Creditors(x, sample) ensures id in Creditors(y, sample) {
      var i :| 0 <= i < |x| && x[i].eventId != "" && sample in x[i].samples && !TextLess(sample, FENCE)
        && x[i].eventId == id;
      assert y[i].eventId == id;
    }
  }

  // ----- what a release proves about the journal -----

  /** The n-th receipt completes this batch and carries all the evidence completion needs. */
  predicate CompletesAt(plan: Plan, events: seq<Event>, id: string, n: nat) {
    && n < |events| && Known(plan, id) && events[n].batchId == id
    && events[n].status == Some(Complete) && Evidenced(plan, BatchOf(plan, id), events[n])
  }

  /** The state of a batch is its last receipt. */
  lemma {:induction false} CompleteMeansCompleted(plan: Plan, events: seq<Event>, id: string) returns (n: nat)
    requires Replay(plan, events).Some? && IsComplete(Replay(plan, events).value, id)
    ensures CompletesAt(plan, events, id, n)
    ensures forall k | n < k < |events| :: events[k].batchId != id
  {
    hide Evidenced;
    n := 0;
    if events != [] {
      var last := |events| - 1;
      if events[last].batchId == id {
        n := last;
      } else {
        n := CompleteMeansCompleted(plan, events[..last], id);
      }
    }
  }

  lemma {:induction false} ReplayPrefix(plan: Plan, events: seq<Event>, n: nat)
    requires Replay(plan, events).Some? && n <= |events|
    ensures Replay(plan, events[..n]).Some?
    decreases |events|
  {
    if n == |events| {
      assert events[..n] == events;
    } else {
      var front := events[..|events| - 1];
      assert front[..n] == events[..n];
      ReplayPrefix(plan, front, n);
    }
  }

  /** A batch is completed only after each of its prerequisites was. */
  lemma PrerequisiteCompletedBefore(plan: Plan, events: seq<Event>, id: string, n: nat, d: string) returns (m: nat)
    requires Replay(plan, events).Some? && CompletesAt(plan, events, id, n) && d in BatchOf(plan, id).dependsOn
    ensures m < n && CompletesAt(plan, events, d, m)
  {
    hide Evidenced;
    ReplayPrefix(plan, events, n + 1);
    ReplayPrefix(plan, events, n);
    assert events[..n + 1][..n] == events[..n];
    assert events[..n + 1][n] == events[n];
    m := CompleteMeansCompleted(plan, events[..n], d);
  }

  /** A chain of dependencies: each batch depends on the next. */
  predicate Chain(plan: Plan, path: seq<string>) {
    path != [] && forall k | 0 <= k < |path| - 1 ::
      Known(plan, path[k]) && path[k + 1] in BatchOf(plan, path[k]).dependsOn
  }

  lemma {:induction false} ChainCompletedBefore(plan: Plan, events: seq<Event>, path: seq<string>, n: nat)
      returns (m: nat)
    requires Replay(plan, events).Some? && Chain(plan, path) && CompletesAt(plan, events, path[0], n)
    ensures m <= n && CompletesAt(plan, events, path[|path| - 1], m) && (|path| > 1 ==> m < n)
    decreases |path|
  {
    hide Evidenced;
    if |path| == 1 {
      m := n;
    } else {
      m := PrerequisiteCompletedBefore(plan, events, path[0], n, path[1]);
      m := ChainCompletedBefore(plan, events, path[1..], m);
    }
  }

  predicate Released(plan: Plan, events: seq<Event>) {
    Replay(plan, events).Some? && IsComplete(Replay(plan, events).value, ReleaseBatch())
  }

  /** RELEASED_VERIFIED: every transitive prerequisite of FR-25 has a completing receipt, with
      its evidence, earlier in the journal than the receipt that completed FR-25. */
  lemma ReleaseRestsOnCompletedPrerequisites(plan: Plan, events: seq<Event>, path: seq<string>) returns (n: nat, m: nat)
    requires Released(plan, events) && Chain(plan, path) && path[0] == ReleaseBatch() && |path| > 1
    ensures CompletesAt(plan, events, ReleaseBatch(), n) && CompletesAt(plan, events, path[|path| - 1], m) && m < n
  {
    n := CompleteMeansCompleted(plan, events, ReleaseBatch());
    m := ChainCompletedBefore(plan, events, path, n);
  }

  /** The history is what counts: a prerequisite may be reopened after the release, and the
      release stands although that prerequisite is no longer complete. */
  lemma ReopeningKeepsTheRelease(plan: Plan, events: seq<Event>, e: Event)
    requires Released(plan, events) && Known(plan, e.batchId) && e.batchId != ReleaseBatch()
    requires e.status == Some(InProgress) && e.eventId != "" && e.summary != "" && e.eventId !in Ids(events)
    ensures Released(plan, events + [e]) && !IsComplete(Replay(plan, events + [e]).value, e.batchId)
  {
    assert (events + [e])[..|events|] == events;
  }
}
