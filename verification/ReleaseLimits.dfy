/** Where the guards of a pass stop short: releases the operator left unmarked, histories it
    could not read, upgrades whose status was not written, and deletions that leave
    releases behind. */
module ReleaseLimits {
  import opened Text
  import opened HelmRelease
  import opened HelmCluster
  import opened ReleasePass
  import opened ReleaseRecords
  import opened ReleaseRuns

  // ---------- releases left unmarked ----------

  /** A first upgrade makes a release the operator will not recognise if and only if it
      failed and left a revision without the marker. */
  lemma UnmarkedExactly(releases: Releases, name: string, f: Fingerprint, a: UpgradeAnswer)
    requires name !in releases
    ensures Foreign(AfterUpgrade(releases, name, f, a), name) <==> a == Recorded(false)
  {
    if !a.NotRecorded? {
      var r := if a.Succeeded? then Revision(true, f, true) else Revision(a.marked, f, false);
      OwnedConcat([], r);
      assert [] + [r] == [r];
    }
  }

  /** The first install of a component fails and leaves a revision without the description
      it was given. From then on the operator is locked out of its own release: every pass
      without `adopt` that reads the history leaves it alone, however its requests are
      answered, and a deletion counts it as gone while it is still there. */
  lemma FailedInstallLocksOut(c: Component, start: Releases, t: Terms, later: Terms, first: Answers, a: Answers,
                              removed: bool)
    requires c.Chart? && c.name !in start && !t.dryRun && first.upgrade == Recorded(false)
    requires !later.adopt && !later.dryRun && a.historyRead
    ensures var p := Whole([c], start, t, [first]);
      var q := Whole([c], p.releases, later, [a]);
      && c.name in p.releases && Foreign(p.releases, c.name)
      && q.releases == p.releases && !q.statuses[0].ready && q.statuses[0].appliedHash == None
      && AfterUninstall(c, p.releases, false, true, removed) == p.releases && Gone(c, p.releases, false)
  {
    var p := Whole([c], start, t, [first]);
    var wanted := Wanted(c, false);
    UnmarkedExactly(start, c.name, wanted, first.upgrade);
    assert PassOver([c], 0, start, t, [first]) == Pass(start, [], map[]);
    assert p.releases == AfterUpgrade(start, c.name, wanted, first.upgrade);
    assert !Deployed(p.releases, c.name);
    assert PassOver([c], 0, p.releases, later, [a]) == Pass(p.releases, [], map[]);
    assert LeavesAlone(c, p.releases, later, a);
  }

  // ---------- histories that could not be read ----------

  /** A deletion without `adopt` takes a foreign release away if and only if its history
      could not be read and the uninstall got through. */
  lemma ForeignUninstalled(c: Component, releases: Releases, historyRead: bool, removed: bool)
    requires !c.NoAdapter? && Foreign(releases, c.name)
    ensures c.name !in AfterUninstall(c, releases, false, historyRead, removed) <==> !historyRead && removed
    ensures historyRead ==> AfterUninstall(c, releases, false, historyRead, removed) == releases
  {
  }

  /** One history that cannot be read, and the pass takes a foreign release over: it runs the
      operator's upgrade and from then on counts as the operator's own. */
  lemma BlindTakeover(c: Component, start: Releases, previous: seq<ComponentStatus>, a: Answers)
    requires c.Chart? && Foreign(start, c.name) && !a.historyRead && a.upgrade.Succeeded?
    requires !Skips(c, start, Terms(false, false, previous), a)
    ensures var p := Whole([c], start, Terms(false, false, previous), [a]);
      && Runs(p.releases, c.name, Wanted(c, false)) && !Foreign(p.releases, c.name)
      && !SameAt(start, p.releases, c.name)
  {
    var t := Terms(false, false, previous);
    PassKnown([c], start, t, [a], c.name);
    ForeignTouched([c], start, t, [a], 0);
    WholePointwise([c], start, t, [a]);
    assert Alone(Whole([c], start, t, [a]), 0, c, start, t, a);
  }

  // ---------- statuses that were not written ----------

  /** Answers of a pass in which nothing fails, with one workload that is ready. */
  const GOOD := Answers(true, true, Succeeded, Some((1, 1)))

  lemma Installed(c: Component, start: Releases, previous: seq<ComponentStatus>)
    requires c.Chart? && !Foreign(start, c.name)
    requires !Unchanged(previous, c.name, Wanted(c, false))
    ensures var p := Whole([c], start, Terms(false, false, previous), [GOOD]);
      && Runs(p.releases, c.name, Wanted(c, false)) && !Foreign(p.releases, c.name)
      && |p.statuses| == 1 && p.statuses[0].name == c.name && p.statuses[0].ready
      && p.statuses[0].appliedHash == Some(Wanted(c, false)) && p.upgraded == map[c.name := Wanted(c, false)]
  {
    var t := Terms(false, false, previous);
    assert PassOver([c], 0, start, t, [GOOD]) == Pass(start, [], map[]);
    PassKnown([c], start, t, [GOOD], c.name);
  }

  /** Three passes in which nothing fails but the second one's status write. The first applies
      `a`, the second applies `b` under the same name; the third is asked for `a` again, skips
      it as unchanged and says `Ready`, while `b` runs. */
  lemma LostStatusSkips(a: Component, b: Component)
    requires a.Chart? && b.Chart? && a.name == b.name && Wanted(a, false) != Wanted(b, false)
    ensures var one := Whole([a], map[], Terms(false, false, []), [GOOD]);
      var two := Whole([b], one.releases, Terms(false, false, one.statuses), [GOOD]);
      var three := Whole([a], two.releases, Terms(false, false, one.statuses), [GOOD]);
      && PhaseOf(false, PlanOutcome(three.statuses, true)) == Ready
      && three.releases == two.releases && three.upgraded == map[]
      && Runs(three.releases, a.name, Wanted(b, false)) && !Runs(three.releases, a.name, Wanted(a, false))
      && LostAfter(LostAfter(map[], one, true), two, false) == map[a.name := Wanted(b, false)]
  {
    var one := Whole([a], map[], Terms(false, false, []), [GOOD]);
    Installed(a, map[], []);
    Installed(b, one.releases, one.statuses);
    var two := Whole([b], one.releases, Terms(false, false, one.statuses), [GOOD]);
    var t := Terms(false, false, one.statuses);
    assert one.statuses[0] in t.previous;
    assert Skips(a, two.releases, t, GOOD);
    assert PassOver([a], 0, two.releases, t, [GOOD]) == Pass(two.releases, [], map[]);
  }

  // ---------- deletions that leave releases behind ----------

  /** A chart is applied, and the Lakehouse is deleted by this event. */
  ghost function AppliedThen(c: Component, e: Event): State
    requires Possible(e)
  {
    Next(Next(State(map[], [], map[]), Applies([c], false, false, [GOOD], true)), e)
  }

  lemma StillRuns(c: Component, e: Event)
    requires c.Chart? && Possible(e) && e.Deletes? && e.endings == []
    ensures Runs(AppliedThen(c, e).releases, c.name, Wanted(c, false))
    ensures Owned(HistoryOf(AppliedThen(c, e).releases, c.name))
  {
    Installed(c, map[], []);
    PassKnown([c], map[], Terms(false, false, []), [GOOD], c.name);
  }

  /** A Lakehouse that was applied and then edited to `dryRun: true` is deleted without a
      single uninstall: the deletion comes to its end, and the release runs on. */
  lemma EditedToDryRun(c: Component)
    requires c.Chart?
    ensures var e := Deletes([c], true, false, []);
      && Complete(Next(State(map[], [], map[]), Applies([c], false, false, [GOOD], true)), e)
      && Runs(AppliedThen(c, e).releases, c.name, Wanted(c, false))
  {
    StillRuns(c, Deletes([c], true, false, []));
  }

  /** A component taken out of the plan before the deletion is not uninstalled. */
  lemma DroppedFromPlan(c: Component)
    requires c.Chart?
    ensures var e := Deletes([], false, false, []);
      && Complete(Next(State(map[], [], map[]), Applies([c], false, false, [GOOD], true)), e)
      && Runs(AppliedThen(c, e).releases, c.name, Wanted(c, false))
  {
    StillRuns(c, Deletes([], false, false, []));
  }
}
