/** The choice of the next work batch in scripts/project_hub.py: a depth-first search over
    the dependency plan with one visited set, which never enters the deferred FR-06. */
module NextWork {
  import opened Prelude
  import opened ProjectHub

  /** The search enters a batch of the plan unless it is the deferred cold-host batch. */
  predicate Enters(plan: Plan, id: string) {
    Known(plan, id) && !(id == "FR-06" && BatchOf(plan, id).coldHostDeferred)
  }

  predicate Dep(plan: Plan, id: string, d: string) {
    Known(plan, id) && d in BatchOf(plan, id).dependsOn
  }

  /** A path of dependencies that enters only batches the search may enter. */
  predicate Path(plan: Plan, path: seq<string>) {
    && path != []
    && (forall k | 0 <= k < |path| :: Enters(plan, path[k]))
    && (forall k | 0 <= k < |path| - 1 :: Dep(plan, path[k], path[k + 1]))
  }

  ghost predicate Reachable(plan: Plan, from: string, id: string) {
    exists path :: Path(plan, path) && path[0] == from && path[|path| - 1] == id
  }

  /** Nothing that can be reached from here is incomplete. */
  ghost predicate Clear(plan: Plan, states: States, id: string) {
    forall x | Reachable(plan, id, x) :: IsComplete(states, x)
  }

  /** This is the first prerequisite of the batch below which something is incomplete. */
  ghost predicate GoesTo(plan: Plan, states: States, id: string, next: string) {
    && Known(plan, id)
    && exists j | 0 <= j < |BatchOf(plan, id).dependsOn| ::
      && BatchOf(plan, id).dependsOn[j] == next && !Clear(plan, states, next)
      && forall i | 0 <= i < j :: Clear(plan, states, BatchOf(plan, id).dependsOn[i])
  }

  lemma GoesToOne(plan: Plan, states: States, id: string, x: string, y: string)
    requires GoesTo(plan, states, id, x) && GoesTo(plan, states, id, y)
    ensures x == y
  {
    hide Clear, BatchOf, Known;
  }

  /** Below this batch nothing is incomplete. */
  ghost predicate Bottom(plan: Plan, states: States, id: string) {
    forall d | Dep(plan, id, d) :: Clear(plan, states, d)
  }

  lemma NoneGoesDown(plan: Plan, states: States, id: string, next: string)
    requires Bottom(plan, states, id)
    ensures !GoesTo(plan, states, id, next)
  {
    hide Clear;
    assert GoesTo(plan, states, id, next) ==> Dep(plan, id, next);
  }

  /** The path goes down through the first open prerequisite of each batch, to an incomplete batch
      below which nothing is. */
  ghost predicate Leading(plan: Plan, states: States, path: seq<string>) {
    && Path(plan, path)
    && (forall k | 0 <= k < |path| - 1 :: GoesTo(plan, states, path[k], path[k + 1]))
    && !IsComplete(states, path[|path| - 1]) && Bottom(plan, states, path[|path| - 1])
  }

  ghost predicate Leads(plan: Plan, states: States, from: string, id: string) {
    exists path :: Leading(plan, states, path) && path[0] == from && path[|path| - 1] == id
  }

  /** What the search has to answer: where the first root leads below which something is incomplete. */
  ghost predicate Foremost(plan: Plan, states: States, id: string) {
    || Leads(plan, states, "FR-08", id)
    || (Clear(plan, states, "FR-08") && Leads(plan, states, "FR-09", id))
    || (Clear(plan, states, "FR-08") && Clear(plan, states, "FR-09") && Leads(plan, states, "FR-25", id))
  }

  /** The prelaunch focus: what the search starts from. */
  const ROOTS := {"FR-08", "FR-09", "FR-25"}

  ghost predicate Wanted(plan: Plan, id: string) {
    exists root | root in ROOTS :: Reachable(plan, root, id)
  }

  /** A visited batch that needs nothing more: outside the search, or complete with all its
      prerequisites visited. */
  ghost predicate Settled(plan: Plan, states: States, visited: set<string>, id: string) {
    Enters(plan, id) ==> IsComplete(states, id) && forall d | Dep(plan, id, d) :: d in visited
  }

  /** Incomplete, with every prerequisite complete or outside the search. */
  ghost predicate Ready(plan: Plan, states: States, id: string) {
    && Enters(plan, id) && !IsComplete(states, id)
    && forall d | Dep(plan, id, d) :: IsComplete(states, d) || !Enters(plan, d)
  }

  /** Everything visited is settled, except the batches the search is still inside. */
  ghost predicate Tidy(plan: Plan, states: States, visited: set<string>, inside: set<string>) {
    forall id | id in visited && id !in inside :: Settled(plan, states, visited, id)
  }

  class Search {
    const plan: Plan
    const states: States
    var visited: set<string>

    constructor (plan: Plan, states: States)
      ensures this.plan == plan && this.states == states && visited == {}
    {
      this.plan, this.states, visited := plan, states, {};
    }

    /** walk: the first ready batch below `identifier` that was not visited before. */
    method Walk(identifier: string, ghost inside: set<string>) returns (r: Option<string>)
      requires ValidPlan(plan) && Tidy(plan, states, visited, inside)
      requires forall id | id in inside ::
        Known(plan, id) && (Known(plan, identifier) ==> Position(plan, identifier) < Position(plan, id))
      modifies this
      ensures old(visited) <= visited
      ensures r == None ==> Tidy(plan, states, visited, inside)
      ensures r == None && Known(plan, identifier) ==> identifier in visited
      ensures r == None ==> Clear(plan, states, identifier)
      ensures r.Some? ==> Ready(plan, states, r.value) && Leads(plan, states, identifier, r.value)
      decreases if Known(plan, identifier) then 1 + Position(plan, identifier) else 0
    {
      hide Ordered, CapabilitiesOk, Owned, ProfileOk, Tidy, Clear, Leads, Ready;
      if identifier in visited || !Known(plan, identifier) {
        VisitedIsClear(plan, states, visited, inside, identifier);
        return None;
      }
      ghost var was := visited;
      visited := visited + {identifier};
      var batch := BatchOf(plan, identifier);
      if identifier == "FR-06" && batch.coldHostDeferred {
        SettledInMore(plan, states, was, visited, inside, inside);
        OutsideIsClear(plan, states, identifier);
        return None;
      }
      SettledInMore(plan, states, was, visited, inside, inside + {identifier});
      var n := 0;
      while n < |batch.dependsOn|
        invariant 0 <= n <= |batch.dependsOn|
        invariant was + {identifier} <= visited
        invariant Tidy(plan, states, visited, inside + {identifier})
        invariant forall k | 0 <= k < n :: batch.dependsOn[k] in visited && Clear(plan, states, batch.dependsOn[k])
      {
        var d := batch.dependsOn[n];
        DependencyIsEarlier(plan, identifier, d);
        var pending := Walk(d, inside + {identifier});
        if pending.Some? {
          LeadsThrough(plan, states, identifier, n, pending.value);
          return pending;
        }
        n := n + 1;
      }
      if !IsComplete(states, identifier) {
        PrerequisitesDone(plan, states, visited, inside, identifier);
        LeadsToItself(plan, states, identifier);
        return Some(identifier);
      }
      NowSettled(plan, states, visited, inside, identifier);
      CompleteIsClear(plan, states, identifier);
      return None;
    }

    method Next() returns (r: Option<string>)
      requires ValidPlan(plan) && visited == {}
      modifies this
      ensures r == None <==> forall id | Wanted(plan, id) :: IsComplete(states, id)
      ensures r.Some? ==> Ready(plan, states, r.value) && Foremost(plan, states, r.value)
    {
      hide Ordered, CapabilitiesOk, Owned, ProfileOk, Settled, Tidy, Ready, Reachable, Clear, Leads;
      NothingVisited(plan, states);
      r := Walk("FR-08", {});
      if r.Some? { ForemostIsWanted(plan, states, r.value); return; }
      r := Walk("FR-09", {});
      if r.Some? { ForemostIsWanted(plan, states, r.value); return; }
      r := Walk("FR-25", {});
      if r.Some? { ForemostIsWanted(plan, states, r.value); return; }
      AllClear(plan, states);
    }
  }

  lemma OutsideIsClear(plan: Plan, states: States, id: string)
    requires !Enters(plan, id)
    ensures Clear(plan, states, id)
  {
    hide Enters, Reachable;
    forall x ensures Reachable(plan, id, x) ==> Enters(plan, id) {
      if Reachable(plan, id, x) { EntersFirst(plan, id, x); }
    }
  }

  lemma EntersFirst(plan: Plan, id: string, x: string)
    requires Reachable(plan, id, x)
    ensures Enters(plan, id)
  {
    hide Enters;
    var path :| Path(plan, path) && path[0] == id && path[|path| - 1] == x;
  }

  /** What was visited and is not being searched has nothing incomplete below it. */
  lemma VisitedIsClear(plan: Plan, states: States, visited: set<string>, inside: set<string>, id: string)
    requires ValidPlan(plan) && Tidy(plan, states, visited, inside) && (id in visited || !Known(plan, id))
    requires forall x | x in inside :: Known(plan, x) && (Known(plan, id) ==> Position(plan, id) < Position(plan, x))
    ensures Clear(plan, states, id)
  {
    hide Tidy, ValidPlan, Settled;
    if Enters(plan, id) {
      forall x | Reachable(plan, id, x) ensures IsComplete(states, x) {
        var path :| Path(plan, path) && path[0] == id && path[|path| - 1] == x;
        PathIsComplete(plan, states, visited, inside, path);
      }
    } else {
      OutsideIsClear(plan, states, id);
    }
  }

  /** The path from the first open prerequisite on, seen from the batch itself. */
  lemma LeadsThrough(plan: Plan, states: States, id: string, n: nat, x: string)
    requires Enters(plan, id) && n < |BatchOf(plan, id).dependsOn|
    requires forall i | 0 <= i < n :: Clear(plan, states, BatchOf(plan, id).dependsOn[i])
    requires Leads(plan, states, BatchOf(plan, id).dependsOn[n], x)
    ensures Leads(plan, states, id, x)
  {
    var d := BatchOf(plan, id).dependsOn[n];
    var path :| Leading(plan, states, path) && path[0] == d && path[|path| - 1] == x;
    LedIsOpen(plan, states, path);
    assert GoesTo(plan, states, id, d);
    hide Clear, Enters, IsComplete, GoesTo, Bottom;
    var longer := [id] + path;
    PathLonger(plan, id, path);
    hide Path;
    forall k | 0 <= k < |longer| - 1 ensures GoesTo(plan, states, longer[k], longer[k + 1]) {
      if k > 0 { assert longer[k] == path[k - 1] && longer[k + 1] == path[k]; }
    }
    assert Leading(plan, states, longer);
  }

  lemma PathLonger(plan: Plan, id: string, path: seq<string>)
    requires Path(plan, path) && Enters(plan, id) && Dep(plan, id, path[0])
    ensures Path(plan, [id] + path)
  {
    hide Enters, Dep;
    var longer := [id] + path;
    forall k | 0 <= k < |longer| ensures Enters(plan, longer[k]) {
      if k > 0 { assert longer[k] == path[k - 1]; }
    }
    forall k | 0 <= k < |longer| - 1 ensures Dep(plan, longer[k], longer[k + 1]) {
      if k > 0 { assert longer[k] == path[k - 1] && longer[k + 1] == path[k]; }
    }
  }

  /** Where a path leads is incomplete, so its beginning is not clear. */
  lemma LedIsOpen(plan: Plan, states: States, path: seq<string>)
    requires Leading(plan, states, path)
    ensures !Clear(plan, states, path[0])
  {
    hide GoesTo, Bottom, IsComplete, Enters, Dep;
    assert Reachable(plan, path[0], path[|path| - 1]);
  }

  lemma LeadsToItself(plan: Plan, states: States, id: string)
    requires Enters(plan, id) && !IsComplete(states, id)
    requires forall k | 0 <= k < |BatchOf(plan, id).dependsOn| :: Clear(plan, states, BatchOf(plan, id).dependsOn[k])
    ensures Leads(plan, states, id, id)
  {
    hide Clear, Enters, IsComplete;
    assert Path(plan, [id]);
    hide Path;
    assert Leading(plan, states, [id]);
  }

  lemma CompleteIsClear(plan: Plan, states: States, id: string)
    requires Enters(plan, id) && IsComplete(states, id)
    requires forall k | 0 <= k < |BatchOf(plan, id).dependsOn| :: Clear(plan, states, BatchOf(plan, id).dependsOn[k])
    ensures Clear(plan, states, id)
  {
    hide Enters;
    forall x | Reachable(plan, id, x) ensures IsComplete(states, x) {
      var path :| Path(plan, path) && path[0] == id && path[|path| - 1] == x;
      if |path| > 1 {
        assert Dep(plan, path[0], path[1]);
        PathTail(plan, path);
        assert Reachable(plan, path[1], x);
      }
    }
  }

  lemma PathTail(plan: Plan, path: seq<string>)
    requires Path(plan, path) && |path| > 1
    ensures Path(plan, path[1..])
  {
    hide Enters, Dep;
    var rest := path[1..];
    forall k | 0 <= k < |rest| ensures Enters(plan, rest[k]) { assert rest[k] == path[k + 1]; }
    forall k | 0 <= k < |rest| - 1 ensures Dep(plan, rest[k], rest[k + 1]) {
      assert rest[k] == path[k + 1] && rest[k + 1] == path[k + 2];
    }
  }

  /** The batch is done with: it is complete and all its prerequisites were visited. */
  lemma NowSettled(plan: Plan, states: States, visited: set<string>, inside: set<string>, id: string)
    requires Tidy(plan, states, visited, inside + {id}) && IsComplete(states, id) && Known(plan, id)
    requires forall k | 0 <= k < |BatchOf(plan, id).dependsOn| :: BatchOf(plan, id).dependsOn[k] in visited
    ensures Tidy(plan, states, visited, inside)
  {
    forall x | x in visited && x !in inside ensures Settled(plan, states, visited, x) {
    }
  }

  /** Where a root leads is wanted and incomplete. */
  lemma ForemostIsWanted(plan: Plan, states: States, id: string)
    requires Leads(plan, states, "FR-08", id) || Leads(plan, states, "FR-09", id) || Leads(plan, states, "FR-25", id)
    ensures Wanted(plan, id) && !IsComplete(states, id)
  {
    hide Clear;
    var path :| Leading(plan, states, path) && path[0] in ROOTS && path[|path| - 1] == id;
    assert Reachable(plan, path[0], id);
  }

  lemma AllClear(plan: Plan, states: States)
    requires Clear(plan, states, "FR-08") && Clear(plan, states, "FR-09") && Clear(plan, states, "FR-25")
    ensures forall id | Wanted(plan, id) :: IsComplete(states, id)
  {
    hide Reachable;
  }

  /** From one batch the search can be led to one place only. */
  lemma {:induction false} LeadingIsUnique(plan: Plan, states: States, a: seq<string>, b: seq<string>)
    requires Leading(plan, states, a) && Leading(plan, states, b) && a[0] == b[0]
    ensures a == b
    decreases |a|
  {
    hide GoesTo, Bottom, Enters, Dep, IsComplete;
    if |a| > 1 && |b| > 1 {
      GoesToOne(plan, states, a[0], a[1], b[1]);
      LeadingTail(plan, states, a);
      LeadingTail(plan, states, b);
      LeadingIsUnique(plan, states, a[1..], b[1..]);
      assert a == [a[0]] + a[1..] && b == [b[0]] + b[1..];
    } else {
      if |b| > 1 { NoneGoesDown(plan, states, a[0], b[1]); }
      if |a| > 1 { NoneGoesDown(plan, states, b[0], a[1]); }
    }
  }

  lemma LeadingTail(plan: Plan, states: States, a: seq<string>)
    requires Leading(plan, states, a) && |a| > 1
    ensures Leading(plan, states, a[1..])
  {
    PathTail(plan, a);
    hide Path, GoesTo, Bottom;
    var rest := a[1..];
    forall k | 0 <= k < |rest| - 1 ensures GoesTo(plan, states, rest[k], rest[k + 1]) {
      assert rest[k] == a[k + 1] && rest[k + 1] == a[k + 2];
    }
  }

  /** There is at most one answer. */
  lemma ForemostIsUnique(plan: Plan, states: States, x: string, y: string)
    requires Foremost(plan, states, x) && Foremost(plan, states, y)
    ensures x == y
  {
    hide Clear, Leads;
    NotBoth(plan, states, "FR-08");
    NotBoth(plan, states, "FR-09");
    if Leads(plan, states, "FR-08", x) {
      LeadsToOne(plan, states, "FR-08", x, y);
    } else if Leads(plan, states, "FR-09", x) {
      LeadsToOne(plan, states, "FR-09", x, y);
    } else {
      LeadsToOne(plan, states, "FR-25", x, y);
    }
  }

  lemma NotBoth(plan: Plan, states: States, root: string)
    ensures Clear(plan, states, root) ==> forall id :: !Leads(plan, states, root, id)
  {
    forall id ensures Leads(plan, states, root, id) ==> !Clear(plan, states, root) {
      if Leads(plan, states, root, id) {
        var path :| Leading(plan, states, path) && path[0] == root && path[|path| - 1] == id;
        LedIsOpen(plan, states, path);
      }
    }
  }

  lemma LeadsToOne(plan: Plan, states: States, root: string, x: string, y: string)
    requires Leads(plan, states, root, x) && Leads(plan, states, root, y)
    ensures x == y
  {
    var a :| Leading(plan, states, a) && a[0] == root && a[|a| - 1] == x;
    var b :| Leading(plan, states, b) && b[0] == root && b[|b| - 1] == y;
    hide Leading;
    LeadingIsUnique(plan, states, a, b);
  }

  lemma NothingVisited(plan: Plan, states: States)
    ensures Tidy(plan, states, {}, {})
  {
  }

  lemma SettledInMore(plan: Plan, states: States, was: set<string>, visited: set<string>, before: set<string>,
                      inside: set<string>)
    requires Tidy(plan, states, was, before) && was <= visited && before <= inside
    requires forall id | id in visited && id !in was && id !in inside :: !Enters(plan, id)
    ensures Tidy(plan, states, visited, inside)
  {
    hide Dep, Enters;
  }

  lemma PrerequisitesDone(plan: Plan, states: States, visited: set<string>, inside: set<string>, id: string)
    requires ValidPlan(plan) && Enters(plan, id) && Tidy(plan, states, visited, inside + {id})
    requires forall k | 0 <= k < |BatchOf(plan, id).dependsOn| :: BatchOf(plan, id).dependsOn[k] in visited
    requires forall x | x in inside :: Known(plan, x) && Position(plan, id) < Position(plan, x)
    requires !IsComplete(states, id)
    ensures Ready(plan, states, id)
  {
    forall d | Dep(plan, id, d) ensures IsComplete(states, d) || !Enters(plan, d) {
      DependencyIsEarlier(plan, id, d);
      assert d in visited && d !in inside + {id};
      assert Settled(plan, states, visited, d);
    }
  }

  lemma {:induction false} PathIsComplete(plan: Plan, states: States, visited: set<string>, inside: set<string>,
                                          path: seq<string>)
    requires ValidPlan(plan) && Path(plan, path) && Tidy(plan, states, visited, inside) && path[0] in visited
    requires forall x | x in inside :: Known(plan, x) && Position(plan, path[0]) < Position(plan, x)
    ensures IsComplete(states, path[|path| - 1])
    decreases |path|
  {
    assert Enters(plan, path[0]) && path[0] !in inside;
    assert Settled(plan, states, visited, path[0]);
    if |path| > 1 {
      assert Dep(plan, path[0], path[1]);
      DependencyIsEarlier(plan, path[0], path[1]);
      PathTail(plan, path);
      hide ValidPlan;
      PathIsComplete(plan, states, visited, inside, path[1..]);
    }
  }

  /** next_product_work_batch. */
  method NextProductWorkBatch(plan: Plan, states: States) returns (r: Option<string>)
    requires ValidPlan(plan)
    ensures plan.deferralActive ==> (r == None <==> forall id | Wanted(plan, id) :: IsComplete(states, id))
    ensures plan.deferralActive && r.Some? ==> Ready(plan, states, r.value) && Foremost(plan, states, r.value)
    ensures !plan.deferralActive ==> (r == None <==> forall id | Known(plan, id) :: IsComplete(states, id))
    ensures !plan.deferralActive && r.Some? ==> FirstIncomplete(plan, states, r.value)
  {
    if plan.deferralActive {
      var search := new Search(plan, states);
      r := search.Next();
      return;
    }
    var n := 0;
    while n < |plan.batches|
      invariant 0 <= n <= |plan.batches|
      invariant forall k | 0 <= k < n :: IsComplete(states, plan.batches[k].id)
    {
      if !IsComplete(states, plan.batches[n].id) {
        return Some(plan.batches[n].id);
      }
      n := n + 1;
    }
    return None;
  }

  predicate FirstIncomplete(plan: Plan, states: States, id: string) {
    && Known(plan, id) && !IsComplete(states, id)
    && forall k | 0 <= k < Position(plan, id) :: IsComplete(states, plan.batches[k].id)
  }

  /** Without the deferral the chosen batch never waits: all its prerequisites are complete. */
  lemma FirstIncompleteIsUnblocked(plan: Plan, states: States, id: string, d: string)
    requires ValidPlan(plan) && FirstIncomplete(plan, states, id) && Dep(plan, id, d)
    ensures IsComplete(states, d)
  {
    DependencyIsEarlier(plan, id, d);
  }

  /** With the deferral a chosen batch can be completed next, as far as prerequisites go,
      exactly when it does not depend on an incomplete deferred FR-06. */
  lemma ReadyBatchMayWaitForColdHost(plan: Plan, states: States, id: string)
    requires ValidPlan(plan) && Ready(plan, states, id)
    ensures (forall d | d in BatchOf(plan, id).dependsOn :: IsComplete(states, d))
      <==> !("FR-06" in BatchOf(plan, id).dependsOn && !IsComplete(states, "FR-06"))
  {
    forall d | d in BatchOf(plan, id).dependsOn && d != "FR-06" ensures IsComplete(states, d) {
      assert Dep(plan, id, d);
      DependencyIsEarlier(plan, id, d);
    }
  }
}
