/** What a pass achieves, how far the records of earlier passes can be relied on, and what
    becomes of releases the operator takes for somebody else's. */
module ReleaseRecords {
  import opened Text
  import opened HelmRelease
  import opened HelmCluster
  import opened ReleasePass

  // ---------- one component ----------

  /** What was upgraded last with success, as far as the release still tells. */
  function Known(releases: Releases, name: string): Option<Fingerprint> {
    LastApplied(HistoryOf(releases, name))
  }

  lemma KnownRuns(releases: Releases, name: string, f: Fingerprint)
    requires Deployed(releases, name)
    ensures Runs(releases, name, f) <==> Known(releases, name) == Some(f)
  {
  }

  /** A hash is reported for an upgrade that succeeded just now, or for one that was skipped. */
  lemma StatusOf(c: Component, start: Releases, t: Terms, a: Answers)
    ensures var x := Apply(c, start, t, a);
      && x.status.name == c.name && (x.status.ready ==> x.status.appliedHash.Some?)
      && (x.status.appliedHash.Some? ==>
            && c.Chart? && !t.dryRun && x.status.appliedHash.value == Wanted(c, false)
            && x.upgraded.Some? != Skips(c, start, t, a))
      && (x.upgraded.Some? ==> c.Chart? && !t.dryRun && x.upgraded.value == Wanted(c, false))
  {
  }

  lemma ApplyKnown(c: Component, start: Releases, t: Terms, a: Answers)
    ensures var x := Apply(c, start, t, a);
      Known(x.releases, c.name) == if x.upgraded.Some? then x.upgraded else Known(start, c.name)
    ensures var x := Apply(c, start, t, a);
      x.upgraded.Some? ==> Runs(x.releases, c.name, x.upgraded.value) && Owned(x.releases[c.name])
  {
    if c.Chart? && !t.dryRun {
      var wanted := Wanted(c, t.dryRun);
      if a.upgrade.Succeeded? {
        UpgradeRuns(start, c.name, wanted);
      } else {
        LastKept(start, c.name, wanted, a.upgrade);
      }
    }
  }

  /** A component's own release only grows, and a foreign one is touched exactly when its
      history could not be read and the upgrade left a revision. */
  lemma ApplyForeign(c: Component, start: Releases, t: Terms, a: Answers)
    ensures var x := Apply(c, start, t, a);
      c.name in start ==> c.name in x.releases && start[c.name] <= x.releases[c.name]
    ensures Foreign(start, c.name) && !t.adopt ==>
      (SameAt(start, Apply(c, start, t, a).releases, c.name) <==>
       !c.Chart? || t.dryRun || Skips(c, start, t, a) || a.historyRead || a.upgrade.NotRecorded?)
  {
  }

  // ---------- a whole pass ----------

  function Whole(plan: seq<Component>, start: Releases, t: Terms, answers: seq<Answers>): Pass
    requires |answers| == |plan|
  {
    PassOver(plan, |plan|, start, t, answers)
  }

  lemma InPlan(plan: seq<Component>, n: string) returns (i: nat)
    requires n in PlanNames(plan)
    ensures i < |plan| && plan[i].name == n
  {
    var c :| c in plan && c.name == n;
    i :| 0 <= i < |plan| && plan[i] == c;
  }

  lemma WholePointwise(plan: seq<Component>, start: Releases, t: Terms, answers: seq<Answers>)
    requires Distinct(plan) && |answers| == |plan|
    ensures var p := Whole(plan, start, t, answers);
      && (forall i :: 0 <= i < |plan| ==> Alone(p, i, plan[i], start, t, answers[i]))
      && (forall n :: n !in PlanNames(plan) ==> SameAt(start, p.releases, n) && n !in p.upgraded)
  {
    PassPointwise(plan, |plan|, start, t, answers);
    assert plan[..|plan|] == plan;
  }

  /** A pass adds revisions to planned releases and does nothing else. */
  ghost predicate Grown(a: Releases, b: Releases, names: set<string>) {
    && (forall n :: n in a ==> n in b && a[n] <= b[n])
    && (forall n :: n !in names ==> SameAt(a, b, n))
  }

  lemma PassGrows(plan: seq<Component>, start: Releases, t: Terms, answers: seq<Answers>)
    requires Distinct(plan) && |answers| == |plan|
    ensures Grown(start, Whole(plan, start, t, answers).releases, PlanNames(plan))
  {
    WholePointwise(plan, start, t, answers);
    var p := Whole(plan, start, t, answers);
    forall n | n in start ensures n in p.releases && start[n] <= p.releases[n] {
      if n in PlanNames(plan) {
        var i := InPlan(plan, n);
        assert Alone(p, i, plan[i], start, t, answers[i]);
        ApplyForeign(plan[i], start, t, answers[i]);
      } else {
        assert SameAt(start, p.releases, n);
      }
    }
  }

  lemma GrownKeepsOwned(a: Releases, b: Releases, names: set<string>, n: string)
    requires Grown(a, b, names) && n in a && Owned(a[n])
    ensures n in b && Owned(b[n])
  {
    var q :| q in a[n] && q.marked;
    var i :| 0 <= i < |a[n]| && a[n][i] == q;
    assert b[n][i] == q;
  }

  /** Releases somebody else installed are as they were, as far as their history was read. */
  ghost predicate ForeignKept(a: Releases, b: Releases, blind: set<string>) {
    forall n :: Foreign(a, n) && n !in blind ==> SameAt(a, b, n)
  }

  /** Without `adopt` a pass touches a foreign release of its plan if and only if it is no
      dry run, the component is not skipped, the history could not be read, and the upgrade
      left a revision. */
  lemma ForeignTouched(plan: seq<Component>, start: Releases, t: Terms, answers: seq<Answers>, i: nat)
    requires Distinct(plan) && |answers| == |plan| && i < |plan|
    requires !t.adopt && Foreign(start, plan[i].name)
    ensures SameAt(start, Whole(plan, start, t, answers).releases, plan[i].name) <==>
      || !plan[i].Chart? || t.dryRun || Skips(plan[i], start, t, answers[i])
      || answers[i].historyRead || answers[i].upgrade.NotRecorded?
  {
    WholePointwise(plan, start, t, answers);
    ApplyForeign(plan[i], start, t, answers[i]);
    assert Alone(Whole(plan, start, t, answers), i, plan[i], start, t, answers[i]);
  }

  lemma AloneKnown(p: Pass, i: nat, c: Component, start: Releases, t: Terms, a: Answers)
    requires i < |p.statuses| && Alone(p, i, c, start, t, a)
    ensures Known(p.releases, c.name) == if c.name in p.upgraded then UpgradedTo(p, c.name) else Known(start, c.name)
    ensures c.name in p.upgraded ==> Runs(p.releases, c.name, p.upgraded[c.name]) && Owned(p.releases[c.name])
  {
    var x := Apply(c, start, t, a);
    ApplyKnown(c, start, t, a);
    assert SameAt(p.releases, x.releases, c.name) && UpgradedTo(p, c.name) == x.upgraded;
  }

  /** A history that could not be read although its release was there is listed in `blind`. */
  ghost predicate Noted(plan: seq<Component>, k: nat, start: Releases, answers: seq<Answers>, blind: set<string>)
    requires k <= |plan| && k <= |answers|
  {
    forall i :: 0 <= i < k && plan[i].name in start && !answers[i].historyRead ==> plan[i].name in blind
  }

  lemma PassKeepsForeign(plan: seq<Component>, start: Releases, t: Terms, answers: seq<Answers>, blind: set<string>)
    requires Distinct(plan) && |answers| == |plan| && Noted(plan, |plan|, start, answers, blind) && !t.adopt
    ensures ForeignKept(start, Whole(plan, start, t, answers).releases, blind)
  {
    WholePointwise(plan, start, t, answers);
    var p := Whole(plan, start, t, answers);
    forall n | Foreign(start, n) && n !in blind ensures SameAt(start, p.releases, n) {
      if n in PlanNames(plan) {
        var i := InPlan(plan, n);
        ForeignTouched(plan, start, t, answers, i);
      }
    }
  }

  /** What is known of every release after a pass is what the pass upgraded, or what was known
      before; and what it upgraded runs. */
  lemma PassKnown(plan: seq<Component>, start: Releases, t: Terms, answers: seq<Answers>, n: string)
    requires Distinct(plan) && |answers| == |plan|
    ensures var p := Whole(plan, start, t, answers);
      && Known(p.releases, n) == (if n in p.upgraded then Some(p.upgraded[n]) else Known(start, n))
      && (n in p.upgraded ==> Runs(p.releases, n, p.upgraded[n]) && Owned(p.releases[n]))
  {
    WholePointwise(plan, start, t, answers);
    var p := Whole(plan, start, t, answers);
    if n in PlanNames(plan) {
      var i := InPlan(plan, n);
      AloneKnown(p, i, plan[i], start, t, answers[i]);
    } else {
      assert SameAt(start, p.releases, n);
    }
  }

  // ---------- records ----------

  /** A recorded hash is that of the last upgrade that succeeded, while there is one. */
  predicate TruthfulEntry(p: ComponentStatus, releases: Releases) {
    p.appliedHash.Some? && Known(releases, p.name).Some? ==> Known(releases, p.name) == p.appliedHash
  }

  /** Upgrades that succeeded in a pass whose status was not written: name -> fingerprint. */
  type Lost = map<string, Fingerprint>

  /** A release with a recorded hash and a successful upgrade is the operator's own. */
  predicate OwnEntry(p: ComponentStatus, releases: Releases) {
    p.appliedHash.Some? && Known(releases, p.name).Some? ==> Owned(HistoryOf(releases, p.name))
  }

  /** The records tell the truth about every component but those with a lost upgrade, and of
      these the lost upgrade is the last one; what is recorded is the operator's own. */
  ghost predicate Reliable(statuses: seq<ComponentStatus>, lost: Lost, releases: Releases) {
    && (forall p :: p in statuses && p.name !in lost ==> TruthfulEntry(p, releases))
    && (forall n :: n in lost && Known(releases, n).Some? ==> Known(releases, n).value == lost[n])
    && (forall p :: p in statuses ==> OwnEntry(p, releases))
  }

  /** A name enters with an upgrade whose status was not written, and leaves when a pass that
      is written upgrades it again. */
  function LostAfter(lost: Lost, p: Pass, written: bool): Lost {
    if written then lost - p.upgraded.Keys else lost + p.upgraded
  }

  /** No upgrade of this component was lost, or the lost one is the one asked for. */
  predicate Trusted(lost: Lost, name: string, wanted: Fingerprint) {
    name in lost ==> lost[name] == wanted
  }

  /** Skipping an unchanged, deployed component is right if and only if no other upgrade of
      it was lost. */
  lemma SkipExact(statuses: seq<ComponentStatus>, lost: Lost, releases: Releases, name: string, wanted: Fingerprint)
    requires Reliable(statuses, lost, releases)
    requires Unchanged(statuses, name, wanted) && Deployed(releases, name)
    ensures Runs(releases, name, wanted) <==> Trusted(lost, name, wanted)
  {
    var p :| p in statuses && p.name == name && p.ready && p.appliedHash == Some(wanted);
    KnownRuns(releases, name, wanted);
    assert Known(releases, name).Some?;
    if name !in lost { assert TruthfulEntry(p, releases); }
  }

  /** A hash that a pass reports runs if and only if the pass upgraded it, or skipped it with
      no other upgrade lost. */
  lemma HashRuns(plan: seq<Component>, start: Releases, t: Terms, answers: seq<Answers>, lost: Lost, i: nat)
    requires Distinct(plan) && |answers| == |plan| && i < |plan|
    requires Reliable(t.previous, lost, start)
    requires Whole(plan, start, t, answers).statuses[i].appliedHash.Some?
    ensures var p, n := Whole(plan, start, t, answers), plan[i].name;
      && p.statuses[i].name == n && plan[i].Chart? && p.statuses[i].appliedHash.value == Wanted(plan[i], false)
      && (Runs(p.releases, n, Wanted(plan[i], false)) <==> n in p.upgraded || Trusted(lost, n, Wanted(plan[i], false)))
      && (n in p.upgraded ==> p.upgraded[n] == Wanted(plan[i], false))
      && (n !in p.upgraded ==> Skips(plan[i], start, t, answers[i]) && SameAt(start, p.releases, n))
  {
    var p, c := Whole(plan, start, t, answers), plan[i];
    WholePointwise(plan, start, t, answers);
    assert Alone(p, i, c, start, t, answers[i]);
    StatusOf(c, start, t, answers[i]);
    PassKnown(plan, start, t, answers, c.name);
    if c.name !in p.upgraded { SkipExact(t.previous, lost, start, c.name, Wanted(c, false)); }
  }

  lemma PassKeepsOwned(plan: seq<Component>, start: Releases, t: Terms, answers: seq<Answers>, n: string)
    requires Distinct(plan) && |answers| == |plan| && Owned(HistoryOf(start, n))
    ensures Owned(HistoryOf(Whole(plan, start, t, answers).releases, n))
  {
    PassGrows(plan, start, t, answers);
    GrownKeepsOwned(start, Whole(plan, start, t, answers).releases, PlanNames(plan), n);
  }

  lemma OwnAfter(plan: seq<Component>, start: Releases, t: Terms, answers: seq<Answers>, lost: Lost, written: bool,
                 q: ComponentStatus)
    requires Distinct(plan) && |answers| == |plan| && Reliable(t.previous, lost, start)
    requires q in if written then Whole(plan, start, t, answers).statuses else t.previous
    ensures OwnEntry(q, Whole(plan, start, t, answers).releases)
  {
    var p := Whole(plan, start, t, answers);
    PassKnown(plan, start, t, answers, q.name);
    if q.appliedHash.Some? && Known(p.releases, q.name).Some? && q.name !in p.upgraded {
      if written {
        var i :| 0 <= i < |plan| && p.statuses[i] == q;
        HashRuns(plan, start, t, answers, lost, i);
        var r :| r in t.previous && r.name == q.name && r.ready && r.appliedHash == Some(Wanted(plan[i], false));
        assert OwnEntry(r, start);
      } else {
        assert OwnEntry(q, start);
      }
      PassKeepsOwned(plan, start, t, answers, q.name);
    }
  }

  /** Records stay as reliable as `Reliable` says over every pass, written or not. */
  lemma ReliableAfter(plan: seq<Component>, start: Releases, t: Terms, answers: seq<Answers>, lost: Lost, written: bool)
    requires Distinct(plan) && |answers| == |plan|
    requires Reliable(t.previous, lost, start)
    ensures var p := Whole(plan, start, t, answers);
      Reliable(if written then p.statuses else t.previous, LostAfter(lost, p, written), p.releases)
  {
    var p := Whole(plan, start, t, answers);
    var after := LostAfter(lost, p, written);
    forall n | n in after && Known(p.releases, n).Some? ensures Known(p.releases, n).value == after[n] {
      PassKnown(plan, start, t, answers, n);
    }
    forall q | q in if written then p.statuses else t.previous ensures OwnEntry(q, p.releases) {
      OwnAfter(plan, start, t, answers, lost, written, q);
    }
    forall q | q in (if written then p.statuses else t.previous) && q.name !in after
      ensures TruthfulEntry(q, p.releases)
    {
      PassKnown(plan, start, t, answers, q.name);
      if written {
        var i :| 0 <= i < |plan| && p.statuses[i] == q;
        if q.appliedHash.Some? { HashRuns(plan, start, t, answers, lost, i); }
      } else {
        assert TruthfulEntry(q, start);
      }
    }
  }

  // ---------- what a pass achieves ----------

  /** Every upgrade that was asked for succeeded. */
  ghost predicate AllSucceeded(answers: seq<Answers>) {
    forall i :: 0 <= i < |answers| ==> answers[i].upgrade.Succeeded?
  }

  /** With a pass in which no upgrade fails, every chart of the plan is upgraded, or skipped,
      or left to whoever installed it. */
  lemma PassReaches(plan: seq<Component>, start: Releases, t: Terms, answers: seq<Answers>, lost: Lost, i: nat)
    requires Distinct(plan) && |answers| == |plan| && i < |plan| && plan[i].Chart?
    requires Reliable(t.previous, lost, start) && !t.dryRun && answers[i].upgrade.Succeeded?
    ensures var p, wanted := Whole(plan, start, t, answers), Wanted(plan[i], false);
      || Runs(p.releases, plan[i].name, wanted)
      || LeavesAlone(plan[i], start, t, answers[i])
      || (Skips(plan[i], start, t, answers[i]) && !Trusted(lost, plan[i].name, wanted))
  {
    var p, c := Whole(plan, start, t, answers), plan[i];
    WholePointwise(plan, start, t, answers);
    assert Alone(p, i, c, start, t, answers[i]);
    PassKnown(plan, start, t, answers, c.name);
    if Skips(c, start, t, answers[i]) { HashRuns(plan, start, t, answers, lost, i); }
  }

  datatype PlanOutcome = PlanOutcome(components: seq<ComponentStatus>, valuesResolved: bool)

  datatype Phase = Degraded | Planned | Ready | Progressing

  /** `phase`. */
  function PhaseOf(dryRun: bool, outcome: PlanOutcome): Phase {
    if !outcome.valuesResolved then Degraded
    else if dryRun then Planned
    else if forall c | c in outcome.components :: c.ready then Ready
    else Progressing
  }

  /** What each phase says. */
  ghost predicate PhaseSays(phase: Phase, dryRun: bool, resolved: bool, statuses: seq<ComponentStatus>) {
    match phase
    case Degraded => !resolved
    case Planned => resolved && dryRun
    case Ready => resolved && !dryRun && forall c :: c in statuses ==> c.ready
    case Progressing => resolved && !dryRun && exists c :: c in statuses && !c.ready
  }

  lemma PhaseExactly(phase: Phase, dryRun: bool, outcome: PlanOutcome)
    ensures phase == PhaseOf(dryRun, outcome) <==>
            PhaseSays(phase, dryRun, outcome.valuesResolved, outcome.components)
  {
  }

  /** Every component that a pass reports ready had all its workloads ready in this pass, or
      was ready with the same fingerprint by an earlier record; and its release is deployed. */
  lemma PassReady(plan: seq<Component>, start: Releases, t: Terms, answers: seq<Answers>, i: nat)
    requires Distinct(plan) && |answers| == |plan| && i < |plan|
    requires Whole(plan, start, t, answers).statuses[i].ready
    ensures var p, c := Whole(plan, start, t, answers), plan[i];
      && c.Chart? && !t.dryRun && WasReady(p.statuses[i], c.name, Wanted(c, false)) && Deployed(p.releases, c.name)
      && ((answers[i].upgrade.Succeeded? && AllReady(answers[i].counts) &&
           c.name in p.upgraded && p.upgraded[c.name] == Wanted(c, false))
          || exists q :: q in t.previous && WasReady(q, c.name, Wanted(c, false)))
  {
    var p, c := Whole(plan, start, t, answers), plan[i];
    WholePointwise(plan, start, t, answers);
    assert Alone(p, i, c, start, t, answers[i]);
    ReadyBecause(c, start, t, answers[i]);
    StatusOf(c, start, t, answers[i]);
  }

  lemma {:induction false} SkipsAll(plan: seq<Component>, k: nat, start: Releases, t: Terms, answers: seq<Answers>)
    requires k <= |plan| && k <= |answers|
    requires forall i :: 0 <= i < k ==> plan[i].Chart? && Skips(plan[i], start, t, answers[i])
    ensures var p := PassOver(plan, k, start, t, answers);
      p.releases == start && p.upgraded == map[] && forall i :: 0 <= i < k ==> p.statuses[i].ready
  {
    if k > 0 { SkipsAll(plan, k - 1, start, t, answers); }
  }

  /** After a pass in which all components were ready, the next pass over the same plan, as
      long as Helm's statuses can be read, upgrades nothing and finds all ready again. */
  lemma ReadyStays(plan: seq<Component>, start: Releases, t: Terms, answers: seq<Answers>, adopt: bool,
                   again: seq<Answers>)
    requires Distinct(plan) && |answers| == |plan| == |again|
    requires forall i :: 0 <= i < |plan| ==> Whole(plan, start, t, answers).statuses[i].ready && again[i].statusRead
    ensures var p := Whole(plan, start, t, answers);
      var q := Whole(plan, p.releases, Terms(false, adopt, p.statuses), again);
      q.releases == p.releases && q.upgraded == map[] && forall c :: c in q.statuses ==> c.ready
  {
    var p := Whole(plan, start, t, answers);
    var later := Terms(false, adopt, p.statuses);
    forall i | 0 <= i < |plan| ensures plan[i].Chart? && Skips(plan[i], p.releases, later, again[i]) {
      PassReady(plan, start, t, answers, i);
      assert p.statuses[i] in later.previous;
    }
    SkipsAll(plan, |plan|, p.releases, later, again);
  }

  /** A Lakehouse that says `Ready` runs all of its plan as asked for, except exactly for the
      components it skipped although another upgrade of them was lost. */
  lemma ReadyRuns(plan: seq<Component>, start: Releases, t: Terms, answers: seq<Answers>, lost: Lost, resolved: bool)
    requires Distinct(plan) && |answers| == |plan| && Reliable(t.previous, lost, start)
    requires PhaseOf(t.dryRun, PlanOutcome(Whole(plan, start, t, answers).statuses, resolved)) == Ready
    ensures var p := Whole(plan, start, t, answers);
      forall i :: 0 <= i < |plan| ==>
        && plan[i].Chart?
        && (Runs(p.releases, plan[i].name, Wanted(plan[i], false)) <==>
            plan[i].name in p.upgraded || Trusted(lost, plan[i].name, Wanted(plan[i], false)))
  {
    var p := Whole(plan, start, t, answers);
    WholePointwise(plan, start, t, answers);
    forall i | 0 <= i < |plan|
      ensures plan[i].Chart?
      ensures Runs(p.releases, plan[i].name, Wanted(plan[i], false)) <==>
        plan[i].name in p.upgraded || Trusted(lost, plan[i].name, Wanted(plan[i], false))
    {
      assert p.statuses[i] in p.statuses;
      assert Alone(p, i, plan[i], start, t, answers[i]);
      StatusOf(plan[i], start, t, answers[i]);
      HashRuns(plan, start, t, answers, lost, i);
    }
  }
}
