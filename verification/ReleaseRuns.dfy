/** Any number of passes, failing anywhere: what they leave of every release and every record,
    whether skipping ever shows, and when a deletion leaves nothing behind. */
module ReleaseRuns {
  import opened Text
  import opened HelmRelease
  import opened HelmCluster
  import opened ReleasePass
  import opened ReleaseRecords

  // ---------- events ----------

  /** The releases, the recorded statuses, and the upgrades whose status was not written. */
  datatype State = State(releases: Releases, statuses: seq<ComponentStatus>, lost: Lost)

  /** One pass as it went. `Idle`: it ended before it came to the releases. A deletion with
      `dryRun` comes to none of them. */
  datatype Event =
    | Idle
    | Applies(plan: seq<Component>, dryRun: bool, adopt: bool, answers: seq<Answers>, written: bool)
    | Deletes(plan: seq<Component>, dryRun: bool, adopt: bool, endings: seq<Ending>)

  ghost predicate Possible(e: Event) {
    match e
    case Idle => true
    case Applies(plan, _, _, answers, _) => Distinct(plan) && |answers| == |plan|
    case Deletes(plan, dryRun, _, endings) => Distinct(plan) && |endings| <= |plan| && (dryRun ==> endings == [])
  }

  ghost function Next(s: State, e: Event): State
    requires Possible(e)
  {
    match e
    case Idle => s
    case Applies(plan, dryRun, adopt, answers, written) =>
      var p := Whole(plan, s.releases, Terms(dryRun, adopt, s.statuses), answers);
      State(p.releases, if written then p.statuses else s.statuses, LostAfter(s.lost, p, written))
    case Deletes(plan, _, adopt, endings) => s.(releases := UninstallOver(plan, s.releases, adopt, endings))
  }

  ghost predicate Trace(trace: seq<Event>) {
    forall e :: e in trace ==> Possible(e)
  }

  ghost function After(s: State, trace: seq<Event>): State
    requires Trace(trace)
  {
    if trace == [] then s else Next(After(s, trace[..|trace| - 1]), trace[|trace| - 1])
  }

  lemma AfterMore(s: State, trace: seq<Event>, e: Event)
    requires Trace(trace) && Possible(e)
    ensures Trace(trace + [e]) && After(s, trace + [e]) == Next(After(s, trace), e)
  {
    assert (trace + [e])[..|trace|] == trace;
  }

  // ---------- what an event does to one release ----------

  datatype Action = Nothing | Upgraded(wanted: Fingerprint, answer: UpgradeAnswer) | Removed

  function Acted(releases: Releases, n: string, a: Action): Releases {
    match a
    case Nothing => releases
    case Upgraded(wanted, answer) => AfterUpgrade(releases, n, wanted, answer)
    case Removed => releases - {n}
  }

  /** The place of a component in a plan, or the length. */
  function Place(plan: seq<Component>, n: string): (i: nat)
    ensures i <= |plan| && (i < |plan| ==> plan[i].name == n)
    ensures i == |plan| ==> n !in PlanNames(plan)
  {
    if plan == [] then 0
    else if plan[0].name == n then 0
    else
      assert plan == [plan[0]] + plan[1..];
      1 + Place(plan[1..], n)
  }

  function ApplyAction(c: Component, releases: Releases, t: Terms, a: Answers): Action {
    if !c.Chart? || t.dryRun || Skips(c, releases, t, a) || LeavesAlone(c, releases, t, a) then Nothing
    else Upgraded(Wanted(c, false), a.upgrade)
  }

  function DeleteAction(c: Component, releases: Releases, adopt: bool, e: Ending): Action {
    if c.NoAdapter? || !e.removed || (!adopt && e.historyRead && Foreign(releases, c.name)) then Nothing else Removed
  }

  ghost function ActionOf(s: State, e: Event, n: string): Action
    requires Possible(e)
  {
    match e
    case Idle => Nothing
    case Applies(plan, dryRun, adopt, answers, _) =>
      var i := Place(plan, n);
      if i == |plan| then Nothing
      else ApplyAction(plan[i], s.releases, Terms(dryRun, adopt, s.statuses), answers[i])
    case Deletes(plan, _, adopt, endings) =>
      var i := Place(plan, n);
      if i < |plan| - |endings| || i == |plan| then Nothing
      else DeleteAction(plan[i], s.releases, adopt, endings[|plan| - 1 - i])
  }

  lemma ApplyActs(c: Component, start: Releases, t: Terms, a: Answers)
    ensures SameAt(Apply(c, start, t, a).releases, Acted(start, c.name, ApplyAction(c, start, t, a)), c.name)
  {
  }

  lemma DeleteActs(c: Component, start: Releases, adopt: bool, e: Ending)
    ensures AfterUninstall(c, start, adopt, e.historyRead, e.removed) ==
      Acted(start, c.name, DeleteAction(c, start, adopt, e))
  {
  }

  lemma PlaceAtEnd(plan: seq<Component>, k: nat, n: string)
    requires k <= |plan| && Place(plan, n) < k && Distinct(plan)
    ensures n !in PlanNames(plan[k..])
  {
    var i := Place(plan, n);
    forall c | c in plan[k..] ensures c.name != n {
      var j :| 0 <= j < |plan[k..]| && plan[k..][j] == c;
      assert plan[k + j] == c && plan[i].name != plan[k + j].name;
    }
  }

  /** A release after an event is what the one action on it makes of it. */
  lemma EventActs(s: State, e: Event, n: string)
    requires Possible(e)
    ensures SameAt(Next(s, e).releases, Acted(s.releases, n, ActionOf(s, e, n)), n)
  {
    match e
    case Idle =>
    case Applies(plan, dryRun, adopt, answers, written) =>
      var t := Terms(dryRun, adopt, s.statuses);
      WholePointwise(plan, s.releases, t, answers);
      var i := Place(plan, n);
      if i < |plan| {
        assert Alone(Whole(plan, s.releases, t, answers), i, plan[i], s.releases, t, answers[i]);
        ApplyActs(plan[i], s.releases, t, answers[i]);
      } else {
        assert SameAt(s.releases, Whole(plan, s.releases, t, answers).releases, n);
      }
    case Deletes(plan, dryRun, adopt, endings) =>
      DeletionActs(plan, s.releases, adopt, endings, n);
  }

  lemma LaterNames(plan: seq<Component>, k: nat, n: string)
    requires k <= |plan| && n !in PlanNames(plan)
    ensures n !in PlanNames(plan[k..])
  {
  }

  lemma DeletionActs(plan: seq<Component>, start: Releases, adopt: bool, endings: seq<Ending>, n: string)
    requires Distinct(plan) && |endings| <= |plan|
    ensures var now, i := UninstallOver(plan, start, adopt, endings), Place(plan, n);
      if i < |plan| - |endings| || i == |plan| then SameAt(now, start, n)
      else SameAt(now, Acted(start, n, DeleteAction(plan[i], start, adopt, endings[|plan| - 1 - i])), n)
  {
    UninstallPointwise(plan, start, adopt, endings);
    var now, i := UninstallOver(plan, start, adopt, endings), Place(plan, n);
    if i < |plan| - |endings| {
      PlaceAtEnd(plan, |plan| - |endings|, n);
      assert SameAt(start, now, n);
    } else if i == |plan| {
      LaterNames(plan, |plan| - |endings|, n);
      assert SameAt(start, now, n);
    } else {
      var j := |plan| - 1 - i;
      assert AloneGone(plan[|plan| - 1 - j], start, now, adopt, endings[j]);
      DeleteActs(plan[i], start, adopt, endings[j]);
    }
  }

  // ---------- whose release it is ----------

  /** The upgrade left a revision with the marker. */
  predicate Marks(a: UpgradeAnswer) {
    a.Succeeded? || a == Recorded(true)
  }

  /** Since it was last taken away an upgrade left a marked revision, or it had one to begin
      with and was never taken away. */
  ghost predicate Recognised(s: State, trace: seq<Event>, n: string)
    requires Trace(trace)
    decreases |trace|
  {
    if trace == [] then Owned(HistoryOf(s.releases, n)) else
      var before := trace[..|trace| - 1];
      match ActionOf(After(s, before), trace[|trace| - 1], n)
      case Nothing => Recognised(s, before, n)
      case Upgraded(_, answer) => Marks(answer) || Recognised(s, before, n)
      case Removed => false
  }

  lemma OwnedAfterAction(releases: Releases, n: string, a: Action)
    ensures Owned(HistoryOf(Acted(releases, n, a), n)) <==>
      !a.Removed? && (Owned(HistoryOf(releases, n)) || (a.Upgraded? && Marks(a.answer)))
  {
    if a.Upgraded? && !a.answer.NotRecorded? {
      var marked := a.answer.Succeeded? || a.answer.marked;
      OwnedConcat(HistoryOf(releases, n), Revision(marked, a.wanted, a.answer.Succeeded?));
    }
  }

  /** Over every run a release is recognised as the operator's own exactly then. */
  lemma {:induction false} RecognisedExactly(s: State, trace: seq<Event>, n: string)
    requires Trace(trace)
    ensures Owned(HistoryOf(After(s, trace).releases, n)) <==> Recognised(s, trace, n)
    decreases |trace|
  {
    if trace != [] {
      var before, e := trace[..|trace| - 1], trace[|trace| - 1];
      RecognisedExactly(s, before, n);
      EventActs(After(s, before), e, n);
      OwnedAfterAction(After(s, before).releases, n, ActionOf(After(s, before), e, n));
    }
  }

  /** The event may take this release away. */
  ghost predicate MayRemove(e: Event, n: string) {
    e.Deletes? && n in PlanNames(e.plan)
  }

  lemma OnlyDeletionsRemove(s: State, e: Event, n: string)
    requires Possible(e) && ActionOf(s, e, n).Removed?
    ensures MayRemove(e, n)
  {
    assert e.plan[Place(e.plan, n)] in e.plan;
  }

  /** Once recognised, a release stays so until a deletion whose plan names it. */
  lemma {:induction false} StaysRecognised(s: State, trace: seq<Event>, k: nat, n: string)
    requires Trace(trace) && k <= |trace| && Recognised(s, trace[..k], n)
    requires forall i :: k <= i < |trace| ==> !MayRemove(trace[i], n)
    ensures Recognised(s, trace, n)
    decreases |trace|
  {
    if k < |trace| {
      var before, e := trace[..|trace| - 1], trace[|trace| - 1];
      assert before[..k] == trace[..k];
      StaysRecognised(s, before, k, n);
      if ActionOf(After(s, before), e, n).Removed? { OnlyDeletionsRemove(After(s, before), e, n); }
    } else {
      assert trace[..k] == trace;
    }
  }

  /** A release the operator owns at the start of a run is still its own at the end, unless a
      deletion in between names it. */
  lemma OwnedKept(s: State, trace: seq<Event>, n: string)
    requires Trace(trace) && Owned(HistoryOf(s.releases, n))
    requires forall e :: e in trace ==> !MayRemove(e, n)
    ensures Owned(HistoryOf(After(s, trace).releases, n))
  {
    assert trace[..0] == [];
    StaysRecognised(s, trace, 0, n);
    RecognisedExactly(s, trace, n);
  }

  /** This event upgraded a release that has no marked revision, failed, and left an unmarked
      one. */
  ghost predicate LeavesUnmarked(s: State, e: Event, n: string)
    requires Possible(e)
  {
    var a := ActionOf(s, e, n);
    a.Upgraded? && a.answer == Recorded(false) && !Owned(HistoryOf(s.releases, n))
  }

  lemma ForeignNext(s: State, e: Event, n: string)
    requires Possible(e) && Foreign(Next(s, e).releases, n) && !Foreign(s.releases, n)
    ensures LeavesUnmarked(s, e, n)
  {
    EventActs(s, e, n);
    OwnedAfterAction(s.releases, n, ActionOf(s, e, n));
  }

  /** There is no other way to lose a release: one that looks foreign at the end of a run and
      did not at its start was left unmarked by a failed upgrade on the way. */
  lemma {:induction false} LostOnlySo(s: State, trace: seq<Event>, n: string) returns (k: nat)
    requires Trace(trace) && Foreign(After(s, trace).releases, n) && !Foreign(s.releases, n)
    ensures k < |trace| && LeavesUnmarked(After(s, trace[..k]), trace[k], n)
    decreases |trace|
  {
    var before, e := trace[..|trace| - 1], trace[|trace| - 1];
    if Foreign(After(s, before).releases, n) {
      k := LostOnlySo(s, before, n);
      assert before[..k] == trace[..k];
    } else {
      ForeignNext(After(s, before), e, n);
      k := |trace| - 1;
    }
  }

  // ---------- what is recorded ----------

  ghost predicate ReliableState(s: State) {
    Reliable(s.statuses, s.lost, s.releases)
  }

  lemma KnownAfterAction(releases: Releases, n: string, a: Action)
    ensures Known(Acted(releases, n, a), n) ==
      match a
      case Nothing => Known(releases, n)
      case Removed => None
      case Upgraded(wanted, answer) => if answer.Succeeded? then Some(wanted) else Known(releases, n)
  {
    if a.Upgraded? {
      if a.answer.Succeeded? {
        UpgradeRuns(releases, n, a.wanted);
      } else {
        LastKept(releases, n, a.wanted, a.answer);
      }
    }
  }

  lemma DeletionKnown(s: State, e: Event, n: string)
    requires Possible(e) && e.Deletes?
    ensures Known(Next(s, e).releases, n).Some? ==>
      Known(Next(s, e).releases, n) == Known(s.releases, n) && SameAt(Next(s, e).releases, s.releases, n)
  {
    EventActs(s, e, n);
    KnownAfterAction(s.releases, n, ActionOf(s, e, n));
  }

  lemma NextReliable(s: State, e: Event)
    requires Possible(e) && ReliableState(s)
    ensures ReliableState(Next(s, e))
  {
    match e
    case Idle =>
    case Applies(plan, dryRun, adopt, answers, written) =>
      ReliableAfter(plan, s.releases, Terms(dryRun, adopt, s.statuses), answers, s.lost, written);
    case Deletes(plan, dryRun, adopt, endings) =>
      var t := Next(s, e);
      forall p | p in t.statuses
        ensures OwnEntry(p, t.releases) && (p.name !in t.lost ==> TruthfulEntry(p, t.releases))
      {
        DeletionKnown(s, e, p.name);
        assert OwnEntry(p, s.releases) && (p.name !in s.lost ==> TruthfulEntry(p, s.releases));
      }
      forall n | n in t.lost && Known(t.releases, n).Some? ensures Known(t.releases, n).value == t.lost[n] {
        DeletionKnown(s, e, n);
      }
  }

  /** Over every run the records stay reliable outside the account of lost upgrades. */
  lemma {:induction false} ReliableRun(s: State, trace: seq<Event>)
    requires Trace(trace) && ReliableState(s)
    ensures ReliableState(After(s, trace))
    decreases |trace|
  {
    if trace != [] {
      ReliableRun(s, trace[..|trace| - 1]);
      NextReliable(After(s, trace[..|trace| - 1]), trace[|trace| - 1]);
    }
  }

  // ---------- what ready means ----------

  /** In this event the release was upgraded to this fingerprint with success, and all its
      workloads were found ready. */
  ghost predicate FoundReady(s: State, e: Event, n: string, f: Fingerprint)
    requires Possible(e)
  {
    && e.Applies? && Place(e.plan, n) < |e.plan|
    && AllReady(e.answers[Place(e.plan, n)].counts) && ActionOf(s, e, n) == Upgraded(f, Succeeded)
  }

  /** At some moment of the run the release was found ready. */
  ghost predicate ReadyOnce(s: State, trace: seq<Event>, n: string, f: Fingerprint)
    requires Trace(trace)
  {
    exists k :: 0 <= k < |trace| && FoundReady(After(s, trace[..k]), trace[k], n, f)
  }

  lemma PlaceOf(plan: seq<Component>, i: nat)
    requires Distinct(plan) && i < |plan|
    ensures Place(plan, plan[i].name) == i
  {
    var j := Place(plan, plan[i].name);
    assert plan[i] in plan;
    assert plan[i].name in PlanNames(plan);
  }

  lemma EventReady(s: State, e: Event, p: ComponentStatus)
    requires Possible(e) && p in Next(s, e).statuses && p.ready && p !in s.statuses
    ensures p.appliedHash.Some?
    ensures FoundReady(s, e, p.name, p.appliedHash.value)
            || exists q :: q in s.statuses && WasReady(q, p.name, p.appliedHash.value)
  {
    var t := Terms(e.dryRun, e.adopt, s.statuses);
    var pass := Whole(e.plan, s.releases, t, e.answers);
    var i :| 0 <= i < |e.plan| && pass.statuses[i] == p;
    PassReady(e.plan, s.releases, t, e.answers, i);
    PlaceOf(e.plan, i);
    WholePointwise(e.plan, s.releases, t, e.answers);
    assert Alone(pass, i, e.plan[i], s.releases, t, e.answers[i]);
    UpgradeAction(e.plan[i], s.releases, t, e.answers[i]);
  }

  lemma UpgradeAction(c: Component, start: Releases, t: Terms, a: Answers)
    ensures Apply(c, start, t, a).upgraded.Some? ==>
      ApplyAction(c, start, t, a) == Upgraded(Apply(c, start, t, a).upgraded.value, Succeeded)
  {
  }

  lemma ReadyLonger(s: State, trace: seq<Event>, n: string, f: Fingerprint)
    requires Trace(trace) && trace != [] && ReadyOnce(s, trace[..|trace| - 1], n, f)
    ensures ReadyOnce(s, trace, n, f)
  {
    var before := trace[..|trace| - 1];
    var k :| 0 <= k < |before| && FoundReady(After(s, before[..k]), before[k], n, f);
    assert before[..k] == trace[..k] && before[k] == trace[k];
  }

  /** Over every run: whatever a record says is ready was found ready, all workloads of the
      very upgrade it records, at some moment of the run, or was recorded so at its start. */
  lemma {:induction false} ReadySince(s: State, trace: seq<Event>, p: ComponentStatus)
    requires Trace(trace) && p in After(s, trace).statuses && p.ready
    requires forall q :: q in s.statuses && q.ready ==> q.appliedHash.Some?
    ensures p.appliedHash.Some?
    ensures ReadyOnce(s, trace, p.name, p.appliedHash.value)
            || exists q :: q in s.statuses && WasReady(q, p.name, p.appliedHash.value)
    decreases |trace|
  {
    if trace == [] {
      assert WasReady(p, p.name, p.appliedHash.value);
    } else {
      var before, e := trace[..|trace| - 1], trace[|trace| - 1];
      var q := p;
      if p !in After(s, before).statuses {
        EventReady(After(s, before), e, p);
        if FoundReady(After(s, before), e, p.name, p.appliedHash.value) { return; }
        q :| q in After(s, before).statuses && WasReady(q, p.name, p.appliedHash.value);
      }
      ReadySince(s, before, q);
      if ReadyOnce(s, before, q.name, q.appliedHash.value) { ReadyLonger(s, trace, q.name, q.appliedHash.value); }
    }
  }

  predicate Written(e: Event) {
    e.Applies? ==> e.written
  }

  /** While every status is written nothing is lost, whatever else fails. */
  lemma {:induction false} NothingLost(s: State, trace: seq<Event>)
    requires Trace(trace) && forall e :: e in trace ==> Written(e)
    ensures After(s, trace).lost.Keys <= s.lost.Keys
    decreases |trace|
  {
    if trace != [] {
      NothingLost(s, trace[..|trace| - 1]);
      assert Written(trace[|trace| - 1]);
    }
  }

  /** So then every record tells the truth. */
  lemma TruthfulRun(s: State, trace: seq<Event>)
    requires Trace(trace) && ReliableState(s) && s.lost == map[] && forall e :: e in trace ==> Written(e)
    ensures forall p :: p in After(s, trace).statuses ==> TruthfulEntry(p, After(s, trace).releases)
  {
    ReliableRun(s, trace);
    NothingLost(s, trace);
  }

  // ---------- skipping never shows ----------

  /** Every component this event skips is one no other upgrade of which was lost. */
  ghost predicate SkipsTrusted(s: State, e: Event)
    requires Possible(e)
  {
    e.Applies? ==> forall i :: 0 <= i < |e.plan| ==>
      SkipTrusted(e.plan[i], s, Terms(e.dryRun, e.adopt, s.statuses), e.answers[i])
  }

  predicate SkipTrusted(c: Component, s: State, t: Terms, a: Answers) {
    c.Chart? && Skips(c, s.releases, t, a) ==> Trusted(s.lost, c.name, Wanted(c, false))
  }

  ghost predicate AllTrusted(s: State, trace: seq<Event>)
    requires Trace(trace)
    decreases |trace|
  {
    trace == [] ||
    (AllTrusted(s, trace[..|trace| - 1]) && SkipsTrusted(After(s, trace[..|trace| - 1]), trace[|trace| - 1]))
  }

  lemma {:induction false} WrittenTrusts(s: State, trace: seq<Event>)
    requires Trace(trace) && s.lost == map[] && forall e :: e in trace ==> Written(e)
    ensures AllTrusted(s, trace)
    decreases |trace|
  {
    if trace != [] {
      WrittenTrusts(s, trace[..|trace| - 1]);
      NothingLost(s, trace[..|trace| - 1]);
    }
  }

  /** The same events, with no record to skip by: every pass applies all of its plan. */
  ghost function AlwaysNext(releases: Releases, e: Event): Releases
    requires Possible(e)
  {
    Next(State(releases, [], map[]), e).releases
  }

  ghost function AlwaysAfter(releases: Releases, trace: seq<Event>): Releases
    requires Trace(trace)
    decreases |trace|
  {
    if trace == [] then releases
    else AlwaysNext(AlwaysAfter(releases, trace[..|trace| - 1]), trace[|trace| - 1])
  }

  /** `a` differs from `b` by revisions only that upgraded again what was there. `clean`: no
      upgrade failed. */
  ghost predicate AlikeAt(a: Releases, b: Releases, n: string, clean: bool) {
    && (n in a <==> n in b) && Known(a, n) == Known(b, n) && (Foreign(a, n) <==> Foreign(b, n))
    && (Deployed(b, n) ==> Deployed(a, n)) && (clean && Deployed(a, n) ==> Deployed(b, n))
  }

  predicate CleanAction(a: Action) {
    a.Upgraded? ==> a.answer.Succeeded?
  }

  lemma ActedDeployed(releases: Releases, n: string, a: Action)
    ensures Deployed(Acted(releases, n, a), n) <==>
      !a.Removed? && (if a.Upgraded? && !a.answer.NotRecorded? then a.answer.Succeeded? else Deployed(releases, n))
  {
  }

  lemma ForeignAfterAction(releases: Releases, n: string, a: Action)
    ensures Foreign(Acted(releases, n, a), n) <==>
      n in Acted(releases, n, a) && !Owned(HistoryOf(Acted(releases, n, a), n))
  {
  }

  /** The same action on both sides. */
  lemma AlikeSame(a: Releases, b: Releases, n: string, x: Action, clean: bool, before: bool)
    requires AlikeAt(a, b, n, before) && (clean ==> before)
    ensures AlikeAt(Acted(a, n, x), Acted(b, n, x), n, clean)
  {
    KnownAfterAction(a, n, x);
    KnownAfterAction(b, n, x);
    OwnedAfterAction(a, n, x);
    OwnedAfterAction(b, n, x);
    ActedDeployed(a, n, x);
    ActedDeployed(b, n, x);
    ForeignAfterAction(a, n, x);
    ForeignAfterAction(b, n, x);
  }

  /** Nothing on the one side, an upgrade to what runs there on the other. */
  lemma AlikeSkipped(a: Releases, b: Releases, n: string, wanted: Fingerprint, answer: UpgradeAnswer, clean: bool,
                     before: bool)
    requires AlikeAt(a, b, n, before) && (clean ==> before && answer.Succeeded?)
    requires Runs(a, n, wanted) && Owned(a[n])
    ensures AlikeAt(a, Acted(b, n, Upgraded(wanted, answer)), n, clean)
  {
    var x := Upgraded(wanted, answer);
    KnownRuns(a, n, wanted);
    KnownAfterAction(b, n, x);
    OwnedAfterAction(b, n, x);
    ActedDeployed(b, n, x);
    ForeignAfterAction(b, n, x);
  }

  /** Where the records make a pass skip, they are right and the release is the operator's. */
  lemma SkippedRuns(c: Component, s: State, t: Terms, a: Answers)
    requires ReliableState(s) && c.Chart? && t.previous == s.statuses && Skips(c, s.releases, t, a)
    ensures Runs(s.releases, c.name, Wanted(c, false)) <==> Trusted(s.lost, c.name, Wanted(c, false))
    ensures Owned(s.releases[c.name])
  {
    SkipExact(s.statuses, s.lost, s.releases, c.name, Wanted(c, false));
    var p :| p in s.statuses && p.name == c.name && p.ready && p.appliedHash == Some(Wanted(c, false));
    assert OwnEntry(p, s.releases);
    assert Known(s.releases, c.name).Some?;
  }

  /** The two sides do the same to a component, or the one skips what the other upgrades to
      what runs there already. */
  lemma ApplyAgrees(c: Component, s: State, b: Releases, t: Terms, a: Answers, before: bool)
    requires ReliableState(s) && t.previous == s.statuses && SkipTrusted(c, s, t, a)
    requires AlikeAt(s.releases, b, c.name, before)
    ensures var x, y := ApplyAction(c, s.releases, t, a), ApplyAction(c, b, t.(previous := []), a);
      x == y || (x == Nothing && y == Upgraded(Wanted(c, false), a.upgrade)
                 && Runs(s.releases, c.name, Wanted(c, false)) && Owned(s.releases[c.name]))
  {
    if c.Chart? && Skips(c, s.releases, t, a) { SkippedRuns(c, s, t, a); }
  }

  lemma AlikeMoved(a: Releases, b: Releases, a': Releases, b': Releases, n: string, clean: bool)
    requires AlikeAt(a, b, n, clean) && SameAt(a', a, n) && SameAt(b', b, n)
    ensures AlikeAt(a', b', n, clean)
  {
  }

  lemma ActionsAgree(s: State, b: Releases, e: Event, n: string, before: bool)
    requires Possible(e) && ReliableState(s) && SkipsTrusted(s, e) && AlikeAt(s.releases, b, n, before)
    ensures var x, y := ActionOf(s, e, n), ActionOf(State(b, [], map[]), e, n);
      x == y || (x == Nothing && y.Upgraded? && Runs(s.releases, n, y.wanted) && Owned(s.releases[n]))
  {
    if e.Applies? {
      var i, t := Place(e.plan, n), Terms(e.dryRun, e.adopt, s.statuses);
      if i < |e.plan| {
        assert SkipTrusted(e.plan[i], s, t, e.answers[i]);
        ApplyAgrees(e.plan[i], s, b, t, e.answers[i], before);
      }
    }
  }

  /** No upgrade of this event failed. */
  ghost predicate CleanEvent(e: Event) {
    e.Applies? ==> AllSucceeded(e.answers)
  }

  lemma CleanActs(s: State, e: Event, n: string)
    requires Possible(e) && CleanEvent(e)
    ensures CleanAction(ActionOf(s, e, n))
  {
  }

  lemma AlikeNext(s: State, b: Releases, e: Event, n: string, before: bool, clean: bool)
    requires Possible(e) && ReliableState(s) && SkipsTrusted(s, e) && AlikeAt(s.releases, b, n, before)
    requires clean ==> before && CleanEvent(e)
    ensures AlikeAt(Next(s, e).releases, AlwaysNext(b, e), n, clean)
  {
    var u := State(b, [], map[]);
    var x, y := ActionOf(s, e, n), ActionOf(u, e, n);
    ActionsAgree(s, b, e, n, before);
    if clean { CleanActs(u, e, n); }
    if x == y {
      AlikeSame(s.releases, b, n, x, clean, before);
    } else {
      AlikeSkipped(s.releases, b, n, y.wanted, y.answer, clean, before);
    }
    EventActs(s, e, n);
    EventActs(u, e, n);
    AlikeMoved(Acted(s.releases, n, x), Acted(b, n, y), Next(s, e).releases, AlwaysNext(b, e), n, clean);
  }

  /** Skipping refines applying everything anew. Over every run whose skips are trusted,
      whatever else fails in it: the same releases exist, the same upgrade was the last to
      succeed, the same ones look foreign, and what would run runs; and nothing else runs
      when no upgrade failed. */
  lemma {:induction false} SkippingRefines(s: State, trace: seq<Event>, n: string, clean: bool)
    requires Trace(trace) && ReliableState(s) && AllTrusted(s, trace)
    requires clean ==> forall e :: e in trace ==> CleanEvent(e)
    ensures AlikeAt(After(s, trace).releases, AlwaysAfter(s.releases, trace), n, clean)
    decreases |trace|
  {
    if trace != [] {
      var before, e := trace[..|trace| - 1], trace[|trace| - 1];
      SkippingRefines(s, before, n, clean);
      ReliableRun(s, before);
      AlikeNext(After(s, before), AlwaysAfter(s.releases, before), e, n, clean, clean);
    }
  }

  /** While every status is written, any sequence of passes leaves running what the same
      passes would leave without skipping, and exactly that when no upgrade fails. */
  lemma WrittenRefines(s: State, trace: seq<Event>, n: string, f: Fingerprint)
    requires Trace(trace) && ReliableState(s) && s.lost == map[] && forall e :: e in trace ==> Written(e)
    ensures Known(After(s, trace).releases, n) == Known(AlwaysAfter(s.releases, trace), n)
    ensures Runs(AlwaysAfter(s.releases, trace), n, f) ==> Runs(After(s, trace).releases, n, f)
    ensures (forall e :: e in trace ==> CleanEvent(e)) ==>
      (Runs(After(s, trace).releases, n, f) <==> Runs(AlwaysAfter(s.releases, trace), n, f))
  {
    WrittenTrusts(s, trace);
    var a, b := After(s, trace).releases, AlwaysAfter(s.releases, trace);
    var clean := forall e :: e in trace ==> CleanEvent(e);
    SkippingRefines(s, trace, n, clean);
    if Deployed(a, n) { KnownRuns(a, n, f); }
    if Deployed(b, n) { KnownRuns(b, n, f); }
  }

  /** One pass: with and without skipping the last successful upgrade of a component is the
      same, except exactly where it is skipped with another upgrade lost and applying it
      would have succeeded. */
  lemma SkipDiffers(s: State, e: Event, i: nat)
    requires Possible(e) && ReliableState(s) && e.Applies? && i < |e.plan|
    ensures Known(Next(s, e).releases, e.plan[i].name) == Known(AlwaysNext(s.releases, e), e.plan[i].name) <==>
      SkipTrusted(e.plan[i], s, Terms(e.dryRun, e.adopt, s.statuses), e.answers[i]) || !e.answers[i].upgrade.Succeeded?
  {
    var c, t, u := e.plan[i], Terms(e.dryRun, e.adopt, s.statuses), State(s.releases, [], map[]);
    assert Place(e.plan, c.name) == i;
    EventActs(s, e, c.name);
    EventActs(u, e, c.name);
    KnownAfterAction(s.releases, c.name, ActionOf(s, e, c.name));
    KnownAfterAction(s.releases, c.name, ActionOf(u, e, c.name));
    if c.Chart? && Skips(c, s.releases, t, e.answers[i]) {
      SkippedRuns(c, s, t, e.answers[i]);
      KnownRuns(s.releases, c.name, Wanted(c, false));
    }
  }

  // ---------- when a deletion leaves nothing behind ----------

  /** The uninstall of the component went through, or there was none to do. */
  predicate Ended(c: Component, releases: Releases, adopt: bool, e: Ending) {
    c.NoAdapter? || e.removed || (!adopt && e.historyRead && Foreign(releases, c.name))
  }

  /** The deletion came to the end of its uninstalls. */
  ghost predicate Complete(s: State, e: Event)
    requires Possible(e) && e.Deletes?
  {
    e.dryRun || (|e.endings| == |e.plan| &&
                 forall i :: 0 <= i < |e.plan| ==> Ended(e.plan[i], s.releases, e.adopt, e.endings[|e.plan| - 1 - i]))
  }

  /** The deletion uninstalls this release. */
  ghost predicate Takes(e: Event, n: string)
    requires e.Deletes?
  {
    !e.dryRun && exists i :: 0 <= i < |e.plan| && e.plan[i].name == n && !e.plan[i].NoAdapter?
  }

  /** A deletion that came to its end leaves the operator's own releases that it does not
      take, and no other. */
  lemma LeftBehind(s: State, e: Event, n: string)
    requires Possible(e) && e.Deletes? && Complete(s, e)
    ensures Owned(HistoryOf(Next(s, e).releases, n)) <==> Owned(HistoryOf(s.releases, n)) && !Takes(e, n)
  {
    EventActs(s, e, n);
    OwnedAfterAction(s.releases, n, ActionOf(s, e, n));
    if Takes(e, n) {
      var i :| 0 <= i < |e.plan| && e.plan[i].name == n && !e.plan[i].NoAdapter?;
      assert Place(e.plan, n) == i;
      assert Ended(e.plan[i], s.releases, e.adopt, e.endings[|e.plan| - 1 - i]);
    }
  }

  /** After a run and a deletion that came to its end, none of the operator's own releases
      is left if and only if the deletion takes every one the run leaves recognised. */
  lemma NothingLeft(s: State, trace: seq<Event>, e: Event)
    requires Trace(trace) && Possible(e) && e.Deletes? && Complete(After(s, trace), e)
    ensures (forall n :: !Owned(HistoryOf(Next(After(s, trace), e).releases, n))) <==>
      (forall n :: Recognised(s, trace, n) ==> Takes(e, n))
  {
    forall n
      ensures Owned(HistoryOf(Next(After(s, trace), e).releases, n)) <==> Recognised(s, trace, n) && !Takes(e, n)
    {
      RecognisedExactly(s, trace, n);
      LeftBehind(After(s, trace), e, n);
    }
  }
}
