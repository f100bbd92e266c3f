/** The two paths of a Lakehouse that owns its namespace: applying its plan, component by
    component, and taking it down again. */
module LakehouseReleases {
  import opened Text
  import opened HelmRelease
  import opened HelmCluster
  import opened ReleasePass
  import opened ReleaseRecords
  import opened ReleaseRuns

  // ---------- applying ----------

  /** The upgrade of one component, and what its workloads say. */
  method ApplyRelease(cluster: Cluster, name: string, wanted: Fingerprint, dryRun: bool)
    returns (status: ComponentStatus, ghost upgrade: UpgradeAnswer, ghost counts: Option<(nat, nat)>)
    requires cluster.Valid() && Describes(wanted.args, OWNER_MARKER)
    modifies cluster`releases, cluster`workloads, cluster`unmarked, cluster`faults
    ensures cluster.Valid() && status == UpgradeStatus(name, wanted, dryRun, upgrade, counts)
    ensures cluster.releases ==
      if dryRun then old(cluster.releases) else AfterUpgrade(old(cluster.releases), name, wanted, upgrade)
    ensures AllReady(counts) ==> Serving(cluster.workloads, name)
    ensures status.ready ==> Serving(cluster.workloads, name)
    ensures status.appliedHash.Some? && Serving(cluster.workloads, name) ==> status.ready
    ensures cluster.faults == old(cluster.faults) + if upgrade.Succeeded? then 0 else 1
    ensures upgrade.Succeeded? ==> cluster.unmarked <= old(cluster.unmarked)
  {
    counts := None;
    var ok;
    ok, upgrade := cluster.Upgrade(name, wanted, dryRun);
    if !ok { return ComponentStatus(name, false, "apply failed", None), upgrade, counts; }
    if dryRun { return ComponentStatus(name, false, "planned", None), upgrade, counts; }
    var listed := cluster.CountWorkloads(name);
    counts := listed;
    if listed == None { return ComponentStatus(name, false, "workloads not read", None), upgrade, counts; }
    var (ready, total) := listed.value;
    var message := Decimal(ready) + "/" + Decimal(total) + " workloads ready";
    status := ComponentStatus(name, total > 0 && ready == total, message, Some(wanted));
  }

  lemma GuardsExactlyAll(c: Component, start: Releases, t: Terms)
    requires c.Chart?
    ensures forall a :: Skips(c, start, t, a) <==> !t.dryRun && StillGood(c, start, t, a)
    ensures forall a :: LeavesAlone(c, start, t, a) <==> !t.dryRun && Somebodys(c, start, t, a)
  {
    forall a ensures Skips(c, start, t, a) <==> !t.dryRun && StillGood(c, start, t, a)
             ensures LeavesAlone(c, start, t, a) <==> !t.dryRun && Somebodys(c, start, t, a)
    {
      GuardsExactly(c, start, t, a);
    }
  }

  /** Why a component with a chart is not applied: its status, or `None`. */
  method Guard(cluster: Cluster, c: Component, wanted: Fingerprint, t: Terms)
    returns (verdict: Option<ComponentStatus>, ghost a: Answers)
    requires c.Chart? && wanted == Wanted(c, t.dryRun)
    modifies cluster`blind
    ensures old(cluster.blind) <= cluster.blind && a.upgrade.Succeeded? && a.counts == None
    ensures verdict.Some? <==>
      !t.dryRun && (StillGood(c, cluster.releases, t, a) || Somebodys(c, cluster.releases, t, a))
    ensures verdict.Some? ==> (verdict.value.ready <==> StillGood(c, cluster.releases, t, a))
    ensures verdict.Some? ==> verdict.value == Apply(c, cluster.releases, t, a).status
    ensures !a.historyRead && c.name in cluster.releases ==> c.name in cluster.blind
  {
    verdict, a := None, Answers(false, true, Succeeded, None);
    GuardsExactlyAll(c, cluster.releases, t);
    if !t.dryRun && Unchanged(t.previous, c.name, wanted) {
      var deployed := cluster.Status(c.name);
      a := a.(statusRead := deployed.Some?);
      if deployed == Some(true) {
        return Some(ComponentStatus(c.name, true, "unchanged", Some(wanted))), a;
      }
    }
    if !t.dryRun && !t.adopt {
      var history := cluster.History(c.name);
      a := a.(historyRead := history.Some?);
      if history.Some? && !Owned(history.value) {
        return Some(ComponentStatus(c.name, false, "release exists and is not owned by this operator", None)), a;
      }
    }
  }

  /** One component with a chart: skipped, left alone, or applied. */
  method ApplyChart(cluster: Cluster, c: Component, t: Terms) returns (status: ComponentStatus, ghost a: Answers)
    requires cluster.Valid() && c.Chart?
    modifies cluster`releases, cluster`workloads, cluster`unmarked, cluster`faults, cluster`blind
    ensures cluster.Valid() && old(cluster.blind) <= cluster.blind
    ensures var x := Apply(c, old(cluster.releases), t, a);
      status == x.status && cluster.releases == x.releases
    ensures AllReady(a.counts) ==> Serving(cluster.workloads, c.name)
    ensures !a.historyRead && c.name in old(cluster.releases) ==> c.name in cluster.blind
    ensures cluster.faults == old(cluster.faults) + if a.upgrade.Succeeded? then 0 else 1
    ensures a.upgrade.Succeeded? ==> cluster.unmarked <= old(cluster.unmarked)
  {
    var wanted := Wanted(c, t.dryRun);
    var verdict;
    verdict, a := Guard(cluster, c, wanted, t);
    if verdict.Some? { return verdict.value, a; }
    ArgumentsMarked(c.release.(dryRun := t.dryRun));
    ghost var upgrade, counts;
    status, upgrade, counts := ApplyRelease(cluster, c.name, wanted, t.dryRun);
    a := a.(upgrade := upgrade, counts := counts);
  }

  /** One component, with or without a chart. */
  method ApplyComponent(cluster: Cluster, c: Component, t: Terms) returns (status: ComponentStatus, ghost a: Answers)
    requires cluster.Valid()
    modifies cluster`releases, cluster`workloads, cluster`unmarked, cluster`faults, cluster`blind
    ensures cluster.Valid() && old(cluster.blind) <= cluster.blind
    ensures var x := Apply(c, old(cluster.releases), t, a);
      status == x.status && cluster.releases == x.releases
    ensures AllReady(a.counts) ==> Serving(cluster.workloads, c.name)
    ensures !a.historyRead && c.name in old(cluster.releases) ==> c.name in cluster.blind
    ensures cluster.faults == old(cluster.faults) + if a.upgrade.Succeeded? then 0 else 1
    ensures a.upgrade.Succeeded? ==> cluster.unmarked <= old(cluster.unmarked)
  {
    a := Answers(false, true, Succeeded, None);
    match c
    case NoAdapter(name) => status := ComponentStatus(name, false, "no adapter yet", None);
    case NoValues(name, message) => status := ComponentStatus(name, false, message, None);
    case Chart(name, release) => status, a := ApplyChart(cluster, c, t);
  }

  /** None of the first `k` components failed for its values. */
  ghost predicate Resolved(plan: seq<Component>, k: nat)
    requires k <= |plan|
  {
    forall i :: 0 <= i < k ==> !plan[i].NoValues?
  }

  lemma MoreSucceeded(answers: seq<Answers>, a: Answers)
    ensures AllSucceeded(answers + [a]) <==> AllSucceeded(answers) && a.upgrade.Succeeded?
  {
    assert forall i :: 0 <= i < |answers| ==> (answers + [a])[i] == answers[i];
    assert (answers + [a])[|answers|] == a;
  }

  lemma MoreNoted(plan: seq<Component>, k: nat, start: Releases, answers: seq<Answers>, a: Answers,
                  blind: set<string>, more: set<string>)
    requires k < |plan| && |answers| == k && Noted(plan, k, start, answers, blind) && blind <= more
    requires plan[k].name in start && !a.historyRead ==> plan[k].name in more
    ensures Noted(plan, k + 1, start, answers + [a], more)
  {
  }

  /** The next component finds its release as the pass began. */
  lemma NotYet(plan: seq<Component>, k: nat, start: Releases, t: Terms, answers: seq<Answers>)
    requires Distinct(plan) && k < |plan| && |answers| == k
    ensures SameAt(start, PassOver(plan, k, start, t, answers).releases, plan[k].name)
  {
    PassPointwise(plan, k, start, t, answers);
    NamesStep(plan, k + 1);
  }

  lemma PassStep(plan: seq<Component>, k: nat, start: Releases, t: Terms, answers: seq<Answers>, a: Answers,
                 blind: set<string>, more: set<string>)
    requires Distinct(plan) && k < |plan| && |answers| == k
    requires Noted(plan, k, start, answers, blind) && blind <= more
    requires var p := PassOver(plan, k, start, t, answers);
      !a.historyRead && plan[k].name in p.releases ==> plan[k].name in more
    ensures var p := PassOver(plan, k, start, t, answers);
      PassOver(plan, k + 1, start, t, answers + [a]) == Added(p, plan[k].name, Apply(plan[k], p.releases, t, a))
    ensures Noted(plan, k + 1, start, answers + [a], more)
    ensures AllSucceeded(answers + [a]) <==> AllSucceeded(answers) && a.upgrade.Succeeded?
    ensures Resolved(plan, k + 1) <==> Resolved(plan, k) && !plan[k].NoValues?
  {
    MoreAnswers(plan, k, start, t, answers, a);
    NotYet(plan, k, start, t, answers);
    MoreNoted(plan, k, start, answers, a, blind, more);
    MoreSucceeded(answers, a);
  }

  /** `apply_plan`, for answers that `blind`, `faults` and `unmarked` keep account of. */
  method ApplyPlan(cluster: Cluster, plan: seq<Component>, t: Terms)
    returns (outcome: PlanOutcome, ghost answers: seq<Answers>)
    requires cluster.Valid() && WellFormedPlan(plan)
    modifies cluster`releases, cluster`workloads, cluster`unmarked, cluster`faults, cluster`blind
    ensures |answers| == |plan|
    ensures var p := Whole(plan, old(cluster.releases), t, answers);
      outcome.components == p.statuses && cluster.releases == p.releases
    ensures outcome.valuesResolved <==> Resolved(plan, |plan|)
    ensures Noted(plan, |plan|, old(cluster.releases), answers, cluster.blind) && old(cluster.blind) <= cluster.blind
    ensures old(cluster.faults) <= cluster.faults
    ensures cluster.faults == old(cluster.faults) <==> AllSucceeded(answers)
    ensures cluster.Valid() && Ledger(cluster.origin, cluster.releases, cluster.unmarked)
    ensures cluster.faults == old(cluster.faults) ==> cluster.unmarked <= old(cluster.unmarked)
    ensures Grown(old(cluster.releases), cluster.releases, PlanNames(plan))
    ensures !t.adopt ==> ForeignKept(old(cluster.releases), cluster.releases, cluster.blind)
  {
    ghost var start := cluster.releases;
    var components: seq<ComponentStatus>, resolved := [], true;
    answers := [];
    for k := 0 to |plan|
      invariant cluster.Valid() && |answers| == k && old(cluster.blind) <= cluster.blind
      invariant var p := PassOver(plan, k, start, t, answers);
        components == p.statuses && cluster.releases == p.releases
      invariant resolved <==> Resolved(plan, k)
      invariant Noted(plan, k, start, answers, cluster.blind)
      invariant old(cluster.faults) <= cluster.faults
      invariant cluster.faults == old(cluster.faults) <==> AllSucceeded(answers)
      invariant cluster.faults == old(cluster.faults) ==> cluster.unmarked <= old(cluster.unmarked)
    {
      ghost var blind := cluster.blind;
      ghost var a;
      var status;
      status, a := ApplyComponent(cluster, plan[k], t);
      PassStep(plan, k, start, t, answers, a, blind, cluster.blind);
      components, resolved := components + [status], resolved && !plan[k].NoValues?;
      answers := answers + [a];
    }
    outcome := PlanOutcome(components, resolved);
    PassGrows(plan, start, t, answers);
    if !t.adopt { PassKeepsForeign(plan, start, t, answers, cluster.blind); }
  }

  // ---------- taking it down ----------

  datatype Policy = Retain | Delete

  /** `seaweedfs`: the object store is the platform's own. */
  datatype Spec = Spec(dryRun: bool, adopt: bool, policy: Policy, seaweedfs: bool)

  ghost predicate AllGone(plan: seq<Component>, releases: Releases, adopt: bool) {
    forall i :: 0 <= i < |plan| ==> Gone(plan[i], releases, adopt)
  }

  /** Releases only went away, and only planned ones. */
  ghost predicate Shrunk(a: Releases, b: Releases, names: set<string>) {
    && (forall n :: n in b ==> n in a && b[n] == a[n])
    && (forall n :: n in a && n !in names ==> n in b)
  }

  /** From `k` on every component is gone; those before the last one tried are untouched. */
  ghost predicate Backwards(a: Releases, b: Releases, plan: seq<Component>, k: nat, adopt: bool) {
    && (forall i :: k <= i < |plan| ==> Gone(plan[i], b, adopt))
    && (forall i :: 0 <= i < |plan| && i < k - 1 ==> (plan[i].name in a ==> plan[i].name in b))
  }

  /** One uninstall, unless the release looks foreign. */
  method UninstallComponent(cluster: Cluster, c: Component, adopt: bool)
    returns (ok: bool, ghost e: Ending)
    requires cluster.Valid()
    modifies cluster`releases, cluster`unmarked, cluster`faults, cluster`blind
    ensures cluster.Valid() && old(cluster.blind) <= cluster.blind && old(cluster.faults) <= cluster.faults
    ensures cluster.releases == AfterUninstall(c, old(cluster.releases), adopt, e.historyRead, e.removed)
    ensures !e.historyRead && c.name in old(cluster.releases) ==> c.name in cluster.blind
    ensures ok <==> cluster.faults == old(cluster.faults)
    ensures ok ==> Gone(c, cluster.releases, adopt) && Ended(c, old(cluster.releases), adopt, e)
    ensures cluster.unmarked <= old(cluster.unmarked)
    ensures !adopt ==> ForeignKept(old(cluster.releases), cluster.releases, cluster.blind)
  {
    e := Ending(true, false);
    if c.NoAdapter? { return true, e; }
    if !adopt {
      var history := cluster.History(c.name);
      e := e.(historyRead := history.Some?);
      if history.Some? && !Owned(history.value) { return true, e; }
    }
    ghost var removed;
    ok, removed := cluster.Uninstall(c.name);
    e := e.(removed := removed);
  }

  lemma GoneStays(c: Component, a: Releases, b: Releases, name: string, adopt: bool)
    requires Gone(c, a, adopt) && (b == a || b == a - {name})
    ensures Gone(c, b, adopt)
  {
  }

  lemma BackwardsStep(start: Releases, a: Releases, b: Releases, plan: seq<Component>, k: nat, adopt: bool)
    requires 0 < k <= |plan| && Distinct(plan)
    requires Backwards(start, a, plan, k + 1, adopt) && Shrunk(start, a, PlanNames(plan))
    requires b == a || b == a - {plan[k - 1].name}
    requires forall i :: k <= i < |plan| ==> Gone(plan[i], a, adopt)
    requires forall i :: 0 <= i < k ==> (plan[i].name in start ==> plan[i].name in a)
    ensures Shrunk(start, b, PlanNames(plan)) && Backwards(start, b, plan, k, adopt)
    ensures Gone(plan[k - 1], b, adopt) ==> forall i :: k - 1 <= i < |plan| ==> Gone(plan[i], b, adopt)
    ensures forall i :: 0 <= i < k - 1 ==> (plan[i].name in start ==> plan[i].name in b)
  {
    assert plan[k - 1] in plan && plan[k - 1].name in PlanNames(plan);
    forall i | k <= i < |plan| ensures Gone(plan[i], b, adopt) {
      GoneStays(plan[i], a, b, plan[k - 1].name, adopt);
    }
  }

  lemma ForeignTwice(a: Releases, b: Releases, c: Releases, early: set<string>, late: set<string>)
    requires ForeignKept(a, b, early) && ForeignKept(b, c, late) && early <= late
    ensures ForeignKept(a, c, late)
  {
    forall n | Foreign(a, n) && n !in late ensures SameAt(a, c, n) {
      assert SameAt(a, b, n) && Foreign(b, n) && SameAt(b, c, n);
    }
  }

  /** The uninstalls that were come to all ended, on the releases as they began. */
  ghost predicate AllEnded(plan: seq<Component>, start: Releases, adopt: bool, endings: seq<Ending>)
    requires |endings| <= |plan|
  {
    forall i :: |plan| - |endings| <= i < |plan| ==> Ended(plan[i], start, adopt, endings[|plan| - 1 - i])
  }

  lemma EndingStep(plan: seq<Component>, start: Releases, adopt: bool, endings: seq<Ending>, e: Ending)
    requires Distinct(plan) && |endings| < |plan|
    ensures var k, before := |plan| - |endings|, UninstallOver(plan, start, adopt, endings);
      && UninstallOver(plan, start, adopt, endings + [e])
           == AfterUninstall(plan[k - 1], before, adopt, e.historyRead, e.removed)
      && (AllEnded(plan, start, adopt, endings) && Ended(plan[k - 1], before, adopt, e) ==>
            AllEnded(plan, start, adopt, endings + [e]))
  {
    var k, before := |plan| - |endings|, UninstallOver(plan, start, adopt, endings);
    assert (endings + [e])[..|endings|] == endings;
    UninstallPointwise(plan, start, adopt, endings);
    NamesFrom(plan, k - 1);
    assert SameAt(start, before, plan[k - 1].name);
  }

  /** The uninstalls, in the reverse of the apply order; the first failure ends them. */
  method UninstallAll(cluster: Cluster, plan: seq<Component>, adopt: bool)
    returns (ok: bool, ghost endings: seq<Ending>)
    requires cluster.Valid() && Distinct(plan)
    modifies cluster`releases, cluster`unmarked, cluster`faults, cluster`blind
    ensures cluster.Valid() && old(cluster.blind) <= cluster.blind && old(cluster.faults) <= cluster.faults
    ensures ok <==> cluster.faults == old(cluster.faults)
    ensures |endings| <= |plan| && cluster.releases == UninstallOver(plan, old(cluster.releases), adopt, endings)
    ensures ok ==> |endings| == |plan| && AllEnded(plan, old(cluster.releases), adopt, endings)
    ensures ok ==> AllGone(plan, cluster.releases, adopt)
    ensures Shrunk(old(cluster.releases), cluster.releases, PlanNames(plan))
    ensures !ok ==>
      exists k: nat :: 0 < k <= |plan| && Backwards(old(cluster.releases), cluster.releases, plan, k, adopt)
    ensures cluster.unmarked <= old(cluster.unmarked)
    ensures !adopt ==> ForeignKept(old(cluster.releases), cluster.releases, cluster.blind)
  {
    ghost var start := cluster.releases;
    var k := |plan|;
    endings := [];
    while k > 0
      invariant 0 <= k <= |plan| && cluster.Valid() && cluster.unmarked <= old(cluster.unmarked)
      invariant old(cluster.blind) <= cluster.blind && cluster.faults == old(cluster.faults)
      invariant |endings| == |plan| - k && cluster.releases == UninstallOver(plan, start, adopt, endings)
      invariant AllEnded(plan, start, adopt, endings)
      invariant Shrunk(start, cluster.releases, PlanNames(plan))
      invariant forall i :: k <= i < |plan| ==> Gone(plan[i], cluster.releases, adopt)
      invariant forall i :: 0 <= i < k ==> (plan[i].name in start ==> plan[i].name in cluster.releases)
      invariant !adopt ==> ForeignKept(start, cluster.releases, cluster.blind)
    {
      ghost var before, blind := cluster.releases, cluster.blind;
      ghost var e;
      ok, e := UninstallComponent(cluster, plan[k - 1], adopt);
      EndingStep(plan, start, adopt, endings, e);
      endings := endings + [e];
      BackwardsStep(start, before, cluster.releases, plan, k, adopt);
      if !adopt { ForeignTwice(start, before, cluster.releases, blind, cluster.blind); }
      if !ok { return; }
      k := k - 1;
    }
    ok := true;
  }

  predicate NoLabelled(volumes: map<string, bool>) {
    forall v | v in volumes :: !volumes[v]
  }

  /** Volumes only went away, and only labelled ones. */
  ghost predicate OnlyLabelledGone(a: map<string, bool>, b: map<string, bool>) {
    && (forall v :: v in b ==> v in a && b[v] == a[v])
    && (forall v :: v in a && !a[v] ==> v in b)
  }

  /** The labelled volumes, one by one. */
  method DeleteVolumes(cluster: Cluster) returns (ok: bool)
    modifies cluster`volumes, cluster`faults
    ensures old(cluster.faults) <= cluster.faults && (ok <==> cluster.faults == old(cluster.faults))
    ensures OnlyLabelledGone(old(cluster.volumes), cluster.volumes)
    ensures ok ==> NoLabelled(cluster.volumes)
  {
    var listed := cluster.ListLabelled();
    if listed == None { return false; }
    var left := listed.value;
    while left != {}
      invariant OnlyLabelledGone(old(cluster.volumes), cluster.volumes) && cluster.faults == old(cluster.faults)
      invariant forall v :: v in cluster.volumes && cluster.volumes[v] ==> v in left
      invariant left <= listed.value
    {
      var v :| v in left;
      ok := cluster.DeleteVolume(v);
      if !ok { return; }
      left := left - {v};
    }
    ok := true;
  }

  /** `delete_lakehouse_data`: the volumes first, then the catalog database. */
  method DeleteData(cluster: Cluster, seaweedfs: bool) returns (ok: bool)
    modifies cluster`volumes, cluster`database, cluster`faults
    ensures old(cluster.faults) <= cluster.faults && (ok <==> cluster.faults == old(cluster.faults))
    ensures OnlyLabelledGone(old(cluster.volumes), cluster.volumes)
    ensures !seaweedfs ==> cluster.volumes == old(cluster.volumes)
    ensures cluster.database ==> old(cluster.database)
    ensures cluster.database != old(cluster.database) && seaweedfs ==> NoLabelled(cluster.volumes)
    ensures ok ==> !cluster.database && (seaweedfs ==> NoLabelled(cluster.volumes))
  {
    if seaweedfs {
      ok := DeleteVolumes(cluster);
      if !ok { return; }
    }
    ok := cluster.DeleteDatabase();
  }

  // ---------- the operator's side ----------

  /** The component runs what the pass asked for, or looked foreign to it. */
  ghost predicate Reached(c: Component, start: Releases, now: Releases, t: Terms) {
    c.Chart? && !t.dryRun ==> Runs(now, c.name, Wanted(c, false)) || (!t.adopt && Foreign(start, c.name))
  }

  lemma AllReached(plan: seq<Component>, start: Releases, t: Terms, answers: seq<Answers>, lost: Lost)
    requires Distinct(plan) && |answers| == |plan| && Reliable(t.previous, lost, start) && AllSucceeded(answers)
    ensures forall i :: 0 <= i < |plan| && (plan[i].Chart? ==> Trusted(lost, plan[i].name, Wanted(plan[i], false))) ==>
      Reached(plan[i], start, Whole(plan, start, t, answers).releases, t)
  {
    forall i | 0 <= i < |plan| && plan[i].Chart? && !t.dryRun && Trusted(lost, plan[i].name, Wanted(plan[i], false))
      ensures Reached(plan[i], start, Whole(plan, start, t, answers).releases, t)
    {
      PassReaches(plan, start, t, answers, lost, i);
    }
  }

  /** The workloads of the component were all found ready after its upgrade, or a record says
      it was ready with the same fingerprint. */
  ghost predicate ReadyShown(c: Component, a: Answers, previous: seq<ComponentStatus>) {
    c.Chart? && ((a.upgrade.Succeeded? && AllReady(a.counts)) ||
                 exists q :: q in previous && WasReady(q, c.name, Wanted(c, false)))
  }

  lemma AllShown(plan: seq<Component>, start: Releases, t: Terms, answers: seq<Answers>)
    requires Distinct(plan) && |answers| == |plan|
    ensures forall i :: 0 <= i < |plan| && Whole(plan, start, t, answers).statuses[i].ready ==>
      ReadyShown(plan[i], answers[i], t.previous)
  {
    forall i | 0 <= i < |plan| && Whole(plan, start, t, answers).statuses[i].ready
      ensures ReadyShown(plan[i], answers[i], t.previous)
    {
      PassReady(plan, start, t, answers, i);
    }
  }

  /** One Lakehouse that owns its namespace: its status and its finalizer. */
  class Owner {
    const cluster: Cluster
    var statuses: seq<ComponentStatus>
    var finalizer: bool
    /** The upgrades whose status did not get written. */
    ghost var lost: Lost

    ghost predicate Valid()
      reads this, cluster
    {
      cluster.Valid() && Reliable(statuses, lost, cluster.releases)
    }

    ghost function Now(): State
      reads this, cluster
    {
      State(cluster.releases, statuses, lost)
    }

    constructor (cluster: Cluster)
      requires cluster.Valid()
      ensures Valid() && this.cluster == cluster && statuses == [] && !finalizer && lost == map[]
    {
      this.cluster, statuses, finalizer, lost := cluster, [], false, map[];
    }

    /** `ensure_lakehouse_finalizer`. */
    method EnsureFinalizer() returns (ok: bool)
      modifies this`finalizer, cluster`faults
      ensures old(cluster.faults) <= cluster.faults && (ok <==> cluster.faults == old(cluster.faults))
      ensures ok ==> finalizer
      ensures old(finalizer) ==> finalizer
    {
      if finalizer { return true; }
      finalizer := *;
      ok := *;
      ok := ok && finalizer;
      if !ok { cluster.faults := cluster.faults + 1; }
    }

    /** One pass over a Lakehouse that is not being deleted. Nothing is applied before the
        finalizer is there. */
    method Reconcile(plan: seq<Component>, dryRun: bool, adopt: bool)
      returns (phase: Option<Phase>, ghost event: Event)
      requires Valid() && WellFormedPlan(plan)
      modifies this, cluster`releases, cluster`workloads, cluster`unmarked, cluster`faults, cluster`blind
      ensures Valid() && old(cluster.blind) <= cluster.blind && old(cluster.faults) <= cluster.faults
      ensures old(finalizer) ==> finalizer
      ensures Possible(event) && Now() == Next(old(Now()), event)
      ensures phase == None ==> event == Idle && unchanged(cluster`unmarked) && cluster.faults > old(cluster.faults)
      ensures phase.Some? ==> finalizer && event.Applies?
      ensures phase.Some? ==> event == Applies(plan, dryRun, adopt, event.answers, event.written)
      ensures phase.Some? ==>
        var p := Whole(plan, old(cluster.releases), Terms(dryRun, adopt, old(statuses)), event.answers);
        && PhaseSays(phase.value, dryRun, Resolved(plan, |plan|), p.statuses)
        && forall i :: 0 <= i < |plan| && p.statuses[i].ready ==>
             ReadyShown(plan[i], event.answers[i], old(statuses))
      ensures cluster.faults == old(cluster.faults) ==> Written(event) && cluster.unmarked <= old(cluster.unmarked)
      ensures phase == Some(Ready) ==>
        forall i :: 0 <= i < |plan| ==>
          && plan[i].Chart?
          && (Trusted(old(lost), plan[i].name, Wanted(plan[i], false)) ==>
                Runs(cluster.releases, plan[i].name, Wanted(plan[i], false)))
      ensures phase.Some? && cluster.faults == old(cluster.faults) ==>
        forall i :: 0 <= i < |plan| && (plan[i].Chart? ==> Trusted(old(lost), plan[i].name, Wanted(plan[i], false))) ==>
          Reached(plan[i], old(cluster.releases), cluster.releases, Terms(dryRun, adopt, old(statuses)))
      ensures Grown(old(cluster.releases), cluster.releases, PlanNames(plan))
      ensures !adopt ==> ForeignKept(old(cluster.releases), cluster.releases, cluster.blind)
    {
      var ensured := EnsureFinalizer();
      if !ensured { return None, Idle; }
      ghost var start, before := cluster.releases, lost;
      ghost var t := Terms(dryRun, adopt, statuses);
      var outcome;
      ghost var answers;
      outcome, answers := ApplyPlan(cluster, plan, Terms(dryRun, adopt, statuses));
      phase := Some(PhaseOf(dryRun, outcome));
      PhaseExactly(phase.value, dryRun, outcome);
      AllShown(plan, start, t, answers);
      var recorded: bool := *;
      event := Applies(plan, dryRun, adopt, answers, recorded);
      lost := LostAfter(lost, Whole(plan, start, t, answers), recorded);
      if recorded {
        statuses := outcome.components;
      } else {
        cluster.faults := cluster.faults + 1;
      }
      ReliableAfter(plan, start, t, answers, before, recorded);
      if phase == Some(Ready) { ReadyRuns(plan, start, t, answers, before, outcome.valuesResolved); }
      if cluster.faults == old(cluster.faults) { AllReached(plan, start, t, answers, before); }
    }

    /** `remove_lakehouse_finalizer`. */
    method RemoveFinalizer() returns (ok: bool)
      modifies this`finalizer, cluster`faults
      ensures old(cluster.faults) <= cluster.faults && (ok <==> cluster.faults == old(cluster.faults))
      ensures ok ==> !finalizer
      ensures finalizer ==> old(finalizer)
    {
      if !finalizer { return true; }
      var applied: bool := *;
      ok := *;
      if applied || ok { finalizer := false; }
      if !ok { cluster.faults := cluster.faults + 1; }
    }

    /** What the deletion promises once the finalizer is gone. */
    ghost predicate TakenDown(plan: seq<Component>, spec: Spec)
      reads cluster
    {
      && AllGone(plan, cluster.releases, spec.adopt)
      && (spec.policy == Policy.Delete ==> !cluster.database && (spec.seaweedfs ==> NoLabelled(cluster.volumes)))
    }

    twostate predicate DataChanged()
      reads cluster
    {
      cluster.volumes != old(cluster.volumes) || cluster.database != old(cluster.database)
    }

    /** `delete_lakehouse`: one attempt. `done`: the finalizer is gone. */
    method Delete(plan: seq<Component>, spec: Spec) returns (done: bool, ghost event: Event)
      requires Valid() && Distinct(plan)
      modifies this`finalizer, cluster
      ensures Valid() && old(cluster.blind) <= cluster.blind && old(cluster.faults) <= cluster.faults
      ensures Possible(event) && Now() == Next(old(Now()), event)
      ensures event.Deletes? && event == Deletes(plan, spec.dryRun, spec.adopt, event.endings)
      ensures done || (old(finalizer) && !finalizer) ==> Complete(old(Now()), event)
      ensures Shrunk(old(cluster.releases), cluster.releases, PlanNames(plan))
      ensures done ==> !finalizer
      ensures cluster.faults == old(cluster.faults) ==> done
      ensures old(finalizer) && !finalizer && !spec.dryRun ==> TakenDown(plan, spec)
      ensures DataChanged() ==>
        !spec.dryRun && spec.policy == Policy.Delete && AllGone(plan, cluster.releases, spec.adopt)
      ensures OnlyLabelledGone(old(cluster.volumes), cluster.volumes)
      ensures !spec.seaweedfs ==> cluster.volumes == old(cluster.volumes)
      ensures (cluster.faults == old(cluster.faults) && !spec.dryRun && spec.policy == Policy.Delete &&
               spec.seaweedfs) ==>
        NoLabelled(cluster.volumes)
      ensures cluster.database ==> old(cluster.database)
      ensures spec.dryRun ==> cluster.releases == old(cluster.releases)
      ensures Ledger(cluster.origin, cluster.releases, cluster.unmarked) && cluster.unmarked <= old(cluster.unmarked)
      ensures !spec.adopt ==> ForeignKept(old(cluster.releases), cluster.releases, cluster.blind)
    {
      event := Deletes(plan, spec.dryRun, spec.adopt, []);
      if spec.dryRun {
        done := RemoveFinalizer();
        return;
      }
      ghost var endings;
      var ok;
      ok, endings := UninstallAll(cluster, plan, spec.adopt);
      event := Deletes(plan, spec.dryRun, spec.adopt, endings);
      NextReliable(old(Now()), event);
      if !ok { return false, event; }
      if spec.policy == Policy.Delete {
        ok := DeleteData(cluster, spec.seaweedfs);
        if !ok { return false, event; }
      }
      done := RemoveFinalizer();
    }

    /** Volumes are chosen by their label alone. When somebody else installed the storage
        release and its history could be read, an attempt without a failed request leaves
        the release and takes its labelled volumes, unless one of three settings is off. */
    method DeleteBesideForeign(plan: seq<Component>, spec: Spec, storage: string)
      returns (done: bool, ghost event: Event)
      requires Valid() && Distinct(plan) && !spec.adopt && Foreign(cluster.releases, storage)
      modifies this`finalizer, cluster
      ensures Valid() && (storage !in cluster.blind ==> SameAt(old(cluster.releases), cluster.releases, storage))
      ensures cluster.faults == old(cluster.faults) ==>
        forall v :: v in old(cluster.volumes) && old(cluster.volumes)[v] ==>
          (v in cluster.volumes <==> spec.dryRun || spec.policy == Policy.Retain || !spec.seaweedfs)
    {
      done, event := Delete(plan, spec);
    }

    /** Attempts until one is done, at most `n`: whatever fails in them, the finalizer goes
        only when everything is down, and data only after every release; and every attempt
        that did not finish had a request that failed. */
    method DeleteWithRetries(plan: seq<Component>, spec: Spec, n: nat) returns (done: bool)
      requires Valid() && Distinct(plan) && finalizer
      modifies this`finalizer, cluster
      ensures Valid() && old(cluster.blind) <= cluster.blind
      ensures done ==> !finalizer
      ensures finalizer ==> cluster.faults >= old(cluster.faults) + n
      ensures !finalizer && !spec.dryRun ==> TakenDown(plan, spec)
      ensures DataChanged() ==>
        !spec.dryRun && spec.policy == Policy.Delete && AllGone(plan, cluster.releases, spec.adopt)
      ensures OnlyLabelledGone(old(cluster.volumes), cluster.volumes)
      ensures !spec.adopt ==> ForeignKept(old(cluster.releases), cluster.releases, cluster.blind)
      ensures Shrunk(old(cluster.releases), cluster.releases, PlanNames(plan))
    {
      done := false;
      var k := 0;
      while k < n && finalizer
        invariant k <= n && Valid() && old(cluster.blind) <= cluster.blind && (done ==> !finalizer)
        invariant finalizer ==> cluster.faults >= old(cluster.faults) + k
        invariant !finalizer && !spec.dryRun ==> TakenDown(plan, spec)
        invariant DataChanged() ==>
          !spec.dryRun && spec.policy == Policy.Delete && AllGone(plan, cluster.releases, spec.adopt)
        invariant OnlyLabelledGone(old(cluster.volumes), cluster.volumes)
        invariant !spec.adopt ==> ForeignKept(old(cluster.releases), cluster.releases, cluster.blind)
        invariant Shrunk(old(cluster.releases), cluster.releases, PlanNames(plan))
      {
        ghost var before, blind := cluster.releases, cluster.blind;
        ghost var event;
        done, event := Delete(plan, spec);
        if !spec.adopt { ForeignTwice(old(cluster.releases), before, cluster.releases, blind, cluster.blind); }
        AllGoneStays(plan, before, cluster.releases, spec.adopt);
        k := k + 1;
      }
    }
  }

  lemma AllGoneStays(plan: seq<Component>, a: Releases, b: Releases, adopt: bool)
    requires Shrunk(a, b, PlanNames(plan))
    ensures AllGone(plan, a, adopt) ==> AllGone(plan, b, adopt)
  {
  }

  // ---------- passes in any order ----------

  datatype Step =
    | ApplyStep(plan: seq<Component>, dryRun: bool, adopt: bool)
    | DeleteStep(plan: seq<Component>, spec: Spec)

  predicate Adopts(s: Step) {
    match s
    case ApplyStep(_, _, adopt) => adopt
    case DeleteStep(_, spec) => spec.adopt
  }

  /** The event is one that this step can come to. */
  ghost predicate CameTo(s: Step, e: Event) {
    match s
    case ApplyStep(plan, dryRun, adopt) =>
      e.Idle? || (e.Applies? && e.plan == plan && e.dryRun == dryRun && e.adopt == adopt)
    case DeleteStep(plan, spec) => e.Deletes? && e.plan == plan && e.dryRun == spec.dryRun && e.adopt == spec.adopt
  }

  ghost predicate AllCameTo(passes: seq<Step>, trace: seq<Event>) {
    |trace| == |passes| && forall k :: 0 <= k < |passes| ==> CameTo(passes[k], trace[k])
  }

  /** Every status was written. */
  ghost predicate AllWritten(trace: seq<Event>) {
    forall e :: e in trace ==> Written(e)
  }

  lemma MoreSteps(passes: seq<Step>, k: nat, trace: seq<Event>, e: Event)
    requires k < |passes| && AllCameTo(passes[..k], trace) && CameTo(passes[k], e)
    ensures AllCameTo(passes[..k + 1], trace + [e])
    ensures AllWritten(trace + [e]) <==> AllWritten(trace) && Written(e)
  {
    assert (trace + [e])[|trace|] == e;
    forall f | f in trace ensures f in trace + [e] {}
  }

  /** The passes one by one. */
  method RunEach(o: Owner, passes: seq<Step>) returns (ghost trace: seq<Event>)
    requires o.Valid() && forall s :: s in passes ==> WellFormedPlan(s.plan)
    modifies o, o.cluster
    ensures o.Valid() && old(o.cluster.blind) <= o.cluster.blind && old(o.cluster.faults) <= o.cluster.faults
    ensures Trace(trace) && AllCameTo(passes, trace) && o.Now() == After(old(o.Now()), trace)
    ensures o.cluster.faults == old(o.cluster.faults) ==>
      o.cluster.unmarked <= old(o.cluster.unmarked) && AllWritten(trace)
    ensures (forall s :: s in passes ==> !Adopts(s)) ==>
      ForeignKept(old(o.cluster.releases), o.cluster.releases, o.cluster.blind)
  {
    ghost var guarded := forall s :: s in passes ==> !Adopts(s);
    ghost var start := o.Now();
    trace := [];
    for k := 0 to |passes|
      invariant o.Valid() && old(o.cluster.blind) <= o.cluster.blind && old(o.cluster.faults) <= o.cluster.faults
      invariant Trace(trace) && AllCameTo(passes[..k], trace) && o.Now() == After(start, trace)
      invariant o.cluster.faults == old(o.cluster.faults) ==>
        o.cluster.unmarked <= old(o.cluster.unmarked) && AllWritten(trace)
      invariant guarded ==> ForeignKept(old(o.cluster.releases), o.cluster.releases, o.cluster.blind)
    {
      ghost var before, blind := o.cluster.releases, o.cluster.blind;
      assert passes[k] in passes;
      ghost var e;
      match passes[k] {
        case ApplyStep(plan, dryRun, adopt) =>
          var phase;
          phase, e := o.Reconcile(plan, dryRun, adopt);
        case DeleteStep(plan, spec) =>
          var done;
          done, e := o.Delete(plan, spec);
      }
      AfterMore(start, trace, e);
      MoreSteps(passes, k, trace, e);
      trace := trace + [e];
      if guarded { ForeignTwice(old(o.cluster.releases), before, o.cluster.releases, blind, o.cluster.blind); }
    }
    assert passes[..|passes|] == passes;
  }

  /** The deletion in this step may take the release away. */
  predicate Names(s: Step, n: string) {
    s.DeleteStep? && n in PlanNames(s.plan)
  }

  lemma NeverRemoved(passes: seq<Step>, trace: seq<Event>, n: string)
    requires AllCameTo(passes, trace) && forall s :: s in passes ==> !Names(s, n)
    ensures forall e :: e in trace ==> !MayRemove(e, n)
  {
    forall e | e in trace ensures !MayRemove(e, n) {
      var k :| 0 <= k < |trace| && trace[k] == e;
      assert CameTo(passes[k], trace[k]) && passes[k] in passes;
    }
  }

  /** Any interleaving of passes, failing anywhere, ends in the state its events lead to. A
      release the operator owns stays its own unless a deletion names it. While every status
      is written, whatever else fails, the records stay true and whatever the same passes
      would leave running without skipping runs. What says it is ready was at some moment
      found ready, with all workloads of the very upgrade it records. A release looks foreign at the end if and
      only if it was found here and never touched, or was left unmarked by a failed upgrade.
      Without `adopt`, and as far as its history was read, whatever looked foreign is as it
      was. */
  method RunPasses(o: Owner, passes: seq<Step>) returns (ghost trace: seq<Event>)
    requires o.Valid() && forall s :: s in passes ==> WellFormedPlan(s.plan)
    modifies o, o.cluster
    ensures o.Valid() && old(o.cluster.blind) <= o.cluster.blind && old(o.cluster.faults) <= o.cluster.faults
    ensures Trace(trace) && AllCameTo(passes, trace) && o.Now() == After(old(o.Now()), trace)
    ensures forall n :: Owned(HistoryOf(old(o.cluster.releases), n)) && (forall s :: s in passes ==> !Names(s, n)) ==>
      Owned(HistoryOf(o.cluster.releases, n))
    ensures AllWritten(trace) ==> o.lost.Keys <= old(o.lost.Keys)
    ensures AllWritten(trace) && old(o.lost) == map[] ==>
      && (forall p :: p in o.statuses ==> TruthfulEntry(p, o.cluster.releases))
      && (forall n, f :: Runs(AlwaysAfter(old(o.cluster.releases), trace), n, f) ==> Runs(o.cluster.releases, n, f))
    ensures forall n ::
      Foreign(o.cluster.releases, n) <==> n in o.cluster.unmarked || Found(o.cluster.origin, o.cluster.releases, n)
    ensures o.cluster.faults == old(o.cluster.faults) ==>
      o.cluster.unmarked <= old(o.cluster.unmarked) && AllWritten(trace)
    ensures (forall s :: s in passes ==> !Adopts(s)) ==>
      ForeignKept(old(o.cluster.releases), o.cluster.releases, o.cluster.blind)
    ensures Reliable(o.statuses, o.lost, o.cluster.releases)
    ensures (forall q :: q in old(o.statuses) ==> !q.ready) ==>
      forall p :: p in o.statuses && p.ready ==>
        p.appliedHash.Some? && ReadyOnce(old(o.Now()), trace, p.name, p.appliedHash.value)
  {
    ghost var start := o.Now();
    trace := RunEach(o, passes);
    if forall q :: q in start.statuses ==> !q.ready { AllReadySince(start, trace); }
    forall n | Owned(HistoryOf(start.releases, n)) && (forall s :: s in passes ==> !Names(s, n))
      ensures Owned(HistoryOf(o.cluster.releases, n))
    {
      NeverRemoved(passes, trace, n);
      OwnedKept(start, trace, n);
    }
    if AllWritten(trace) {
      NothingLost(start, trace);
      if start.lost == map[] { WrittenRun(start, trace); }
    }
  }

  lemma AllReadySince(start: State, trace: seq<Event>)
    requires Trace(trace) && forall q :: q in start.statuses ==> !q.ready
    ensures forall p :: p in After(start, trace).statuses && p.ready ==>
      p.appliedHash.Some? && ReadyOnce(start, trace, p.name, p.appliedHash.value)
  {
    forall p | p in After(start, trace).statuses && p.ready
      ensures p.appliedHash.Some? && ReadyOnce(start, trace, p.name, p.appliedHash.value)
    {
      ReadySince(start, trace, p);
    }
  }

  lemma WrittenRun(start: State, trace: seq<Event>)
    requires Trace(trace) && ReliableState(start) && start.lost == map[] && AllWritten(trace)
    ensures var now := After(start, trace);
      && (forall p :: p in now.statuses ==> TruthfulEntry(p, now.releases))
      && (forall n, f :: Runs(AlwaysAfter(start.releases, trace), n, f) ==> Runs(now.releases, n, f))
  {
    TruthfulRun(start, trace);
    forall n, f ensures Runs(AlwaysAfter(start.releases, trace), n, f) ==> Runs(After(start, trace).releases, n, f) {
      WrittenRefines(start, trace, n, f);
    }
  }
}
