/** What one pass over a plan does to the releases and reports, given the answers its
    requests got; and how long the records of earlier passes can be relied on. */
module ReleasePass {
  import opened Text
  import opened HelmRelease
  import opened HelmCluster

  /** One component of the plan, after its values were looked up. */
  datatype Component =
    | NoAdapter(name: string)
    | NoValues(name: string, message: string)
    | Chart(name: string, release: Release)

  datatype ComponentStatus =
    ComponentStatus(name: string, ready: bool, message: string, appliedHash: Option<Fingerprint>)

  ghost predicate Distinct(plan: seq<Component>) {
    forall i, j :: 0 <= i < j < |plan| ==> plan[i].name != plan[j].name
  }

  /** A chart's release is named after its component. */
  ghost predicate WellFormedPlan(plan: seq<Component>) {
    Distinct(plan) && forall i :: 0 <= i < |plan| && plan[i].Chart? ==> plan[i].release.name == plan[i].name
  }

  function PlanNames(plan: seq<Component>): set<string> {
    set c | c in plan :: c.name
  }

  /** What a pass is run with: two settings of the spec, and the recorded statuses. */
  datatype Terms = Terms(dryRun: bool, adopt: bool, previous: seq<ComponentStatus>)

  /** The fingerprint a pass asks for. */
  function Wanted(c: Component, dryRun: bool): Fingerprint
    requires c.Chart?
  {
    FingerprintOf(c.release.(dryRun := dryRun))
  }

  // ---------- one component ----------

  /** The answers one component's requests get: whether `helm status` and `helm history`
      can be read, how the upgrade comes out, and what its workloads say. */
  datatype Answers = Answers(statusRead: bool, historyRead: bool, upgrade: UpgradeAnswer, counts: Option<(nat, nat)>)

  /** The report on one component, the releases after it, and the fingerprint of an upgrade
      that succeeded. */
  datatype Applied = Applied(status: ComponentStatus, releases: Releases, upgraded: Option<Fingerprint>)

  /** The status says this very upgrade succeeded and its workloads were ready. */
  predicate Unchanged(previous: seq<ComponentStatus>, name: string, wanted: Fingerprint) {
    exists p | p in previous :: p.name == name && p.ready && p.appliedHash == Some(wanted)
  }

  predicate Skips(c: Component, releases: Releases, t: Terms, a: Answers)
    requires c.Chart?
  {
    !t.dryRun && Unchanged(t.previous, c.name, Wanted(c, t.dryRun)) && a.statusRead && Deployed(releases, c.name)
  }

  /** The adopt guard. */
  predicate LeavesAlone(c: Component, releases: Releases, t: Terms, a: Answers) {
    !t.dryRun && !t.adopt && a.historyRead && Foreign(releases, c.name)
  }

  /** The report on an upgrade, from its answer and what its workloads say. */
  function UpgradeStatus(name: string, wanted: Fingerprint, dryRun: bool, upgrade: UpgradeAnswer,
                         counts: Option<(nat, nat)>)
    : ComponentStatus
  {
    if !upgrade.Succeeded? then ComponentStatus(name, false, "apply failed", None)
    else if dryRun then ComponentStatus(name, false, "planned", None)
    else if counts == None then ComponentStatus(name, false, "workloads not read", None)
    else
      var (ready, total) := counts.value;
      var message := Decimal(ready) + "/" + Decimal(total) + " workloads ready";
      ComponentStatus(name, total > 0 && ready == total, message, Some(wanted))
  }

  /** The loop body of `apply_plan`. */
  function Apply(c: Component, releases: Releases, t: Terms, a: Answers): Applied {
    match c
    case NoAdapter(name) => Applied(ComponentStatus(name, false, "no adapter yet", None), releases, None)
    case NoValues(name, message) => Applied(ComponentStatus(name, false, message, None), releases, None)
    case Chart(name, _) =>
      var wanted := Wanted(c, t.dryRun);
      if Skips(c, releases, t, a) then
        Applied(ComponentStatus(name, true, "unchanged", Some(wanted)), releases, None)
      else if LeavesAlone(c, releases, t, a) then
        Applied(ComponentStatus(name, false, "release exists and is not owned by this operator", None), releases, None)
      else
        Applied(UpgradeStatus(name, wanted, t.dryRun, a.upgrade, a.counts),
                if t.dryRun then releases else AfterUpgrade(releases, name, wanted, a.upgrade),
                if !t.dryRun && a.upgrade.Succeeded? then Some(wanted) else None)
  }

  /** Every workload that was counted is ready, and there is one. */
  predicate AllReady(counts: Option<(nat, nat)>) {
    counts.Some? && counts.value.1 > 0 && counts.value.0 == counts.value.1
  }

  /** The record says the component was ready with this fingerprint. */
  predicate WasReady(p: ComponentStatus, name: string, wanted: Fingerprint) {
    p.name == name && p.ready && p.appliedHash == Some(wanted)
  }

  /** Nothing is done to the component, and it is reported as not ready. */
  predicate Untouched(x: Applied, name: string, releases: Releases) {
    x == Applied(ComponentStatus(name, false, x.status.message, None), releases, None)
  }

  /** A record says the component was ready with this very upgrade, and Helm reports it
      deployed. */
  ghost predicate StillGood(c: Component, start: Releases, t: Terms, a: Answers)
    requires c.Chart?
  {
    && (exists p :: p in t.previous && WasReady(p, c.name, Wanted(c, false)))
    && a.statusRead && Deployed(start, c.name)
  }

  /** The history was read and shows no marked revision, and taking over was not asked for. */
  ghost predicate Somebodys(c: Component, start: Releases, t: Terms, a: Answers) {
    !t.adopt && a.historyRead && c.name in start && forall r :: r in start[c.name] ==> !r.marked
  }

  lemma GuardsExactly(c: Component, start: Releases, t: Terms, a: Answers)
    requires c.Chart?
    ensures Skips(c, start, t, a) <==> !t.dryRun && StillGood(c, start, t, a)
    ensures LeavesAlone(c, start, t, a) <==> !t.dryRun && Somebodys(c, start, t, a)
  {
    assert Unchanged(t.previous, c.name, Wanted(c, t.dryRun)) <==>
      exists p :: p in t.previous && WasReady(p, c.name, Wanted(c, t.dryRun));
  }

  /** What the pass does with a component, case by case. It is skipped exactly when a record
      says it was ready with this very upgrade and Helm reports it deployed; left alone
      exactly when its history was read, shows no marked revision, and taking over was not
      asked for; and otherwise upgraded, and ready exactly when the upgrade succeeded and all
      its workloads are. */
  lemma ApplyExactly(c: Component, start: Releases, t: Terms, a: Answers)
    ensures var x := Apply(c, start, t, a);
      if !c.Chart? || t.dryRun then Untouched(x, c.name, start)
      else if StillGood(c, start, t, a) then
        x == Applied(ComponentStatus(c.name, true, "unchanged", Some(Wanted(c, false))), start, None)
      else if Somebodys(c, start, t, a) then
        Untouched(x, c.name, start)
      else
        && x.releases == AfterUpgrade(start, c.name, Wanted(c, false), a.upgrade) && x.status.name == c.name
        && x.upgraded == (if a.upgrade.Succeeded? then Some(Wanted(c, false)) else None)
        && (x.status.ready <==> a.upgrade.Succeeded? && AllReady(a.counts))
        && x.status.appliedHash == (if a.upgrade.Succeeded? && a.counts.Some? then Some(Wanted(c, false)) else None)
        && (a.upgrade.Succeeded? && a.counts.Some? ==>
              x.status.message == Decimal(a.counts.value.0) + "/" + Decimal(a.counts.value.1) + " workloads ready")
  {
    if c.Chart? { GuardsExactly(c, start, t, a); }
  }

  /** A component says ready only when all its workloads were found ready just now, or a
      record says it was ready with the same fingerprint before. */
  lemma ReadyBecause(c: Component, start: Releases, t: Terms, a: Answers)
    requires Apply(c, start, t, a).status.ready
    ensures c.Chart? && !t.dryRun && Apply(c, start, t, a).status.appliedHash == Some(Wanted(c, false))
    ensures (a.upgrade.Succeeded? && AllReady(a.counts) && Apply(c, start, t, a).upgraded == Some(Wanted(c, false)))
            || exists p :: p in t.previous && WasReady(p, c.name, Wanted(c, false))
    ensures Deployed(Apply(c, start, t, a).releases, c.name)
  {
    ApplyExactly(c, start, t, a);
  }

  lemma UpgradeLocal(a: Releases, b: Releases, name: string, f: Fingerprint, u: UpgradeAnswer)
    requires SameAt(a, b, name)
    ensures SameAt(AfterUpgrade(a, name, f, u), AfterUpgrade(b, name, f, u), name)
    ensures OnlyRelease(a, AfterUpgrade(a, name, f, u), name)
  {
  }

  lemma GuardsLocal(c: Component, a: Releases, b: Releases, t: Terms, w: Answers)
    requires SameAt(a, b, c.name) && c.Chart?
    ensures Skips(c, a, t, w) == Skips(c, b, t, w)
    ensures LeavesAlone(c, a, t, w) == LeavesAlone(c, b, t, w)
  {
  }

  /** What happens to a component depends on its own release alone, and touches no other. */
  lemma ApplyLocal(c: Component, a: Releases, b: Releases, t: Terms, w: Answers)
    requires SameAt(a, b, c.name)
    ensures var x, y := Apply(c, a, t, w), Apply(c, b, t, w);
      && x.status == y.status && x.upgraded == y.upgraded && SameAt(x.releases, y.releases, c.name)
      && OnlyRelease(a, x.releases, c.name)
  {
    if c.Chart? {
      GuardsLocal(c, a, b, t, w);
      UpgradeLocal(a, b, c.name, Wanted(c, t.dryRun), w.upgrade);
    }
  }

  // ---------- the whole plan ----------

  /** The releases, the reports, and what was upgraded with success. */
  datatype Pass = Pass(releases: Releases, statuses: seq<ComponentStatus>, upgraded: map<string, Fingerprint>)

  /** `apply_plan` over the first `k` components. */
  function PassOver(plan: seq<Component>, k: nat, releases: Releases, t: Terms,
                    answers: seq<Answers>): (p: Pass)
    requires k <= |plan| && k <= |answers|
    ensures |p.statuses| == k
  {
    if k == 0 then Pass(releases, [], map[]) else
      var p := PassOver(plan, k - 1, releases, t, answers);
      Added(p, plan[k - 1].name, Apply(plan[k - 1], p.releases, t, answers[k - 1]))
  }

  function Added(p: Pass, name: string, x: Applied): Pass {
    var upgraded := if x.upgraded.Some? then p.upgraded[name := x.upgraded.value] else p.upgraded;
    Pass(x.releases, p.statuses + [x.status], upgraded)
  }

  function UpgradedTo(p: Pass, name: string): Option<Fingerprint> {
    if name in p.upgraded then Some(p.upgraded[name]) else None
  }

  lemma {:induction false} MoreAnswers(plan: seq<Component>, k: nat, releases: Releases, t: Terms,
                                       answers: seq<Answers>, a: Answers)
    requires k <= |plan| && k <= |answers|
    ensures PassOver(plan, k, releases, t, answers + [a])
      == PassOver(plan, k, releases, t, answers)
  {
    if k > 0 { MoreAnswers(plan, k - 1, releases, t, answers, a); }
  }

  /** One component of a pass is as if it had been the only one. */
  ghost predicate Alone(p: Pass, i: nat, c: Component, start: Releases, t: Terms,
                        a: Answers)
    requires i < |p.statuses|
  {
    var x := Apply(c, start, t, a);
    p.statuses[i] == x.status && SameAt(p.releases, x.releases, c.name) && UpgradedTo(p, c.name) == x.upgraded
  }

  lemma AloneStays(p: Pass, q: Pass, i: nat, c: Component, start: Releases, t: Terms, a: Answers)
    requires i < |p.statuses| && i < |q.statuses| && q.statuses[i] == p.statuses[i]
    requires SameAt(p.releases, q.releases, c.name) && UpgradedTo(p, c.name) == UpgradedTo(q, c.name)
    requires Alone(p, i, c, start, t, a)
    ensures Alone(q, i, c, start, t, a)
  {
    var x := Apply(c, start, t, a);
    assert SameAt(p.releases, x.releases, c.name);
  }

  lemma NamesStep(plan: seq<Component>, k: nat)
    requires Distinct(plan) && 0 < k <= |plan|
    ensures plan[k - 1].name !in PlanNames(plan[..k - 1])
    ensures PlanNames(plan[..k]) == PlanNames(plan[..k - 1]) + {plan[k - 1].name}
  {
    assert plan[..k] == plan[..k - 1] + [plan[k - 1]];
  }

  lemma LastAlone(p: Pass, c: Component, start: Releases, t: Terms, a: Answers)
    requires SameAt(p.releases, start, c.name) && c.name !in p.upgraded
    ensures var q := Added(p, c.name, Apply(c, p.releases, t, a));
      Alone(q, |p.statuses|, c, start, t, a) && OnlyRelease(p.releases, q.releases, c.name)
  {
    ApplyLocal(c, p.releases, start, t, a);
  }

  /** Every one of the first `k` components is as if alone, and no other release is touched. */
  ghost predicate Pointwise(p: Pass, plan: seq<Component>, k: nat, start: Releases, t: Terms, answers: seq<Answers>)
    requires k <= |plan| && k <= |answers| && |p.statuses| == k
  {
    && (forall i :: 0 <= i < k ==> Alone(p, i, plan[i], start, t, answers[i]))
    && (forall n :: n !in PlanNames(plan[..k]) ==> SameAt(start, p.releases, n) && n !in p.upgraded)
  }

  lemma PointwiseStep(p: Pass, q: Pass, plan: seq<Component>, k: nat, start: Releases, t: Terms, answers: seq<Answers>)
    requires Distinct(plan) && 0 < k <= |plan| && k <= |answers| && |p.statuses| == k - 1 && |q.statuses| == k
    requires Pointwise(p, plan, k - 1, start, t, answers)
    requires q.statuses[..k - 1] == p.statuses && OnlyRelease(p.releases, q.releases, plan[k - 1].name)
    requires forall n :: n != plan[k - 1].name ==> UpgradedTo(p, n) == UpgradedTo(q, n)
    requires Alone(q, k - 1, plan[k - 1], start, t, answers[k - 1])
    ensures Pointwise(q, plan, k, start, t, answers)
  {
    NamesStep(plan, k);
    forall i | 0 <= i < k - 1 ensures Alone(q, i, plan[i], start, t, answers[i]) {
      assert q.statuses[..k - 1][i] == q.statuses[i];
      AloneStays(p, q, i, plan[i], start, t, answers[i]);
    }
    forall n | n !in PlanNames(plan[..k]) ensures SameAt(start, q.releases, n) && n !in q.upgraded {
      assert SameAt(start, p.releases, n) && SameAt(p.releases, q.releases, n);
      assert UpgradedTo(p, n) == UpgradedTo(q, n);
    }
  }

  /** A pass treats every component of its plan alone, and touches no other release. */
  lemma {:induction false} PassPointwise(plan: seq<Component>, k: nat, start: Releases, t: Terms, answers: seq<Answers>)
    requires Distinct(plan) && k <= |plan| && k <= |answers|
    ensures Pointwise(PassOver(plan, k, start, t, answers), plan, k, start, t, answers)
  {
    if k > 0 {
      PassPointwise(plan, k - 1, start, t, answers);
      NamesStep(plan, k);
      var p := PassOver(plan, k - 1, start, t, answers);
      LastAlone(p, plan[k - 1], start, t, answers[k - 1]);
      PointwiseStep(p, PassOver(plan, k, start, t, answers), plan, k, start, t, answers);
    }
  }

  // ---------- taking one component down ----------

  /** The component has no release left, or only one that looks foreign. */
  predicate Gone(c: Component, releases: Releases, adopt: bool) {
    !c.NoAdapter? && c.name in releases ==> !adopt && Foreign(releases, c.name)
  }

  /** The loop body of `delete_lakehouse`. `removed`: `helm uninstall` took the release
      away, whatever it answered. */
  function AfterUninstall(c: Component, releases: Releases, adopt: bool, historyRead: bool, removed: bool): Releases {
    if c.NoAdapter? then releases
    else if !adopt && historyRead && Foreign(releases, c.name) then releases
    else if removed then releases - {c.name}
    else releases
  }

  /** How the deletion of one component went. */
  datatype Ending = Ending(historyRead: bool, removed: bool)

  /** The uninstalls of `delete_lakehouse`, from the last component of the plan on, as far as
      they came. */
  function UninstallOver(plan: seq<Component>, releases: Releases, adopt: bool, endings: seq<Ending>): Releases
    requires |endings| <= |plan|
  {
    if endings == [] then releases else
      var j := |endings| - 1;
      var before := UninstallOver(plan, releases, adopt, endings[..j]);
      AfterUninstall(plan[|plan| - 1 - j], before, adopt, endings[j].historyRead, endings[j].removed)
  }

  /** Every component the uninstalls came to is as if it had been the only one. */
  ghost predicate EachAlone(plan: seq<Component>, start: Releases, now: Releases, adopt: bool, endings: seq<Ending>)
    requires |endings| <= |plan|
  {
    && (forall j :: 0 <= j < |endings| ==>
          AloneGone(plan[|plan| - 1 - j], start, now, adopt, endings[j]))
    && (forall n :: n !in PlanNames(plan[|plan| - |endings|..]) ==> SameAt(start, now, n))
  }

  ghost predicate AloneGone(c: Component, start: Releases, now: Releases, adopt: bool, e: Ending) {
    SameAt(now, AfterUninstall(c, start, adopt, e.historyRead, e.removed), c.name)
  }

  lemma UninstallLocal(c: Component, a: Releases, b: Releases, adopt: bool, e: Ending)
    requires SameAt(a, b, c.name)
    ensures AloneGone(c, a, AfterUninstall(c, b, adopt, e.historyRead, e.removed), adopt, e)
    ensures OnlyRelease(b, AfterUninstall(c, b, adopt, e.historyRead, e.removed), c.name)
  {
  }

  lemma NamesFrom(plan: seq<Component>, k: nat)
    requires Distinct(plan) && k < |plan|
    ensures plan[k].name !in PlanNames(plan[k + 1..])
    ensures PlanNames(plan[k..]) == PlanNames(plan[k + 1..]) + {plan[k].name}
  {
    assert plan[k..] == [plan[k]] + plan[k + 1..];
  }

  lemma EachStep(plan: seq<Component>, start: Releases, before: Releases, now: Releases, adopt: bool,
                 endings: seq<Ending>)
    requires Distinct(plan) && 0 < |endings| <= |plan|
    requires EachAlone(plan, start, before, adopt, endings[..|endings| - 1])
    requires var k := |plan| - |endings|;
      OnlyRelease(before, now, plan[k].name) && AloneGone(plan[k], start, now, adopt, endings[|endings| - 1])
    ensures EachAlone(plan, start, now, adopt, endings)
  {
    var k, earlier := |plan| - |endings|, endings[..|endings| - 1];
    NamesFrom(plan, k);
    forall j | 0 <= j < |earlier| ensures AloneGone(plan[|plan| - 1 - j], start, now, adopt, endings[j]) {
      assert AloneGone(plan[|plan| - 1 - j], start, before, adopt, earlier[j]);
      assert SameAt(before, now, plan[|plan| - 1 - j].name);
    }
    forall n | n !in PlanNames(plan[k..]) ensures SameAt(start, now, n) {
      assert SameAt(start, before, n) && SameAt(before, now, n);
    }
  }

  /** A deletion treats every component it comes to alone, and touches no other release. */
  lemma {:induction false} UninstallPointwise(plan: seq<Component>, start: Releases, adopt: bool, endings: seq<Ending>)
    requires Distinct(plan) && |endings| <= |plan|
    ensures EachAlone(plan, start, UninstallOver(plan, start, adopt, endings), adopt, endings)
    decreases |endings|
  {
    if endings != [] {
      var k, earlier := |plan| - |endings|, endings[..|endings| - 1];
      UninstallPointwise(plan, start, adopt, earlier);
      NamesFrom(plan, k);
      var before := UninstallOver(plan, start, adopt, earlier);
      assert SameAt(start, before, plan[k].name);
      UninstallLocal(plan[k], start, before, adopt, endings[|endings| - 1]);
      EachStep(plan, start, before, UninstallOver(plan, start, adopt, endings), adopt, endings);
    }
  }
}
