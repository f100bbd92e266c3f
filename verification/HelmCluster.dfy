/** What the operator finds and leaves in a namespace: Helm releases with their history,
    volumes, and the catalog database. Every request may fail. */
module HelmCluster {
  import opened Text
  import opened HelmRelease

  // ---------- releases ----------

  /** One revision. `marked`: its description holds the owner marker. `applied`: the
      upgrade succeeded; such a revision is `deployed` while it is the last one. */
  datatype Revision = Revision(marked: bool, fingerprint: Fingerprint, applied: bool)

  type Releases = map<string, seq<Revision>>

  predicate WellFormed(releases: Releases) {
    forall n | n in releases :: releases[n] != []
  }

  function HistoryOf(releases: Releases, name: string): seq<Revision> {
    if name in releases then releases[name] else []
  }

  /** `is_owned`: some revision carries the marker. */
  predicate Owned(history: seq<Revision>) {
    exists r | r in history :: r.marked
  }

  /** What the operator takes for somebody else's: a release without a marked revision. */
  predicate Foreign(releases: Releases, name: string) {
    name in releases && !Owned(releases[name])
  }

  /** `is_deployed`: the last revision was applied. */
  predicate Deployed(releases: Releases, name: string) {
    name in releases && releases[name] != [] && releases[name][|releases[name]| - 1].applied
  }

  /** The release is deployed, with this fingerprint. */
  predicate Runs(releases: Releases, name: string, f: Fingerprint) {
    Deployed(releases, name) && releases[name][|releases[name]| - 1].fingerprint == f
  }

  /** The fingerprint of the last upgrade that succeeded. */
  function LastApplied(history: seq<Revision>): Option<Fingerprint> {
    if history == [] then None
    else if history[|history| - 1].applied then Some(history[|history| - 1].fingerprint)
    else LastApplied(history[..|history| - 1])
  }

  predicate SameAt(a: Releases, b: Releases, name: string) {
    (name in a <==> name in b) && (name in a ==> a[name] == b[name])
  }

  /** Nothing but this release may have changed. */
  ghost predicate OnlyRelease(a: Releases, b: Releases, name: string) {
    forall n :: n != name ==> SameAt(a, b, n)
  }

  // ---------- what a request does ----------

  /** How an upgrade came out. A failed one may leave a revision that was not applied, with
      or without the description it was given. */
  datatype UpgradeAnswer = Succeeded | NotRecorded | Recorded(marked: bool)

  function AfterUpgrade(releases: Releases, name: string, f: Fingerprint, a: UpgradeAnswer): Releases {
    match a
    case Succeeded => releases[name := HistoryOf(releases, name) + [Revision(true, f, true)]]
    case NotRecorded => releases
    case Recorded(marked) => releases[name := HistoryOf(releases, name) + [Revision(marked, f, false)]]
  }

  lemma {:induction false} OwnedConcat(history: seq<Revision>, r: Revision)
    ensures Owned(history + [r]) <==> Owned(history) || r.marked
  {
    if Owned(history) {
      var q :| q in history && q.marked;
      assert q in history + [r];
    }
    if r.marked { assert (history + [r])[|history|] == r; }
  }

  lemma LastOfConcat(history: seq<Revision>, r: Revision)
    ensures LastApplied(history + [r]) == if r.applied then Some(r.fingerprint) else LastApplied(history)
  {
    assert (history + [r])[..|history|] == history;
  }

  lemma UpgradeRuns(releases: Releases, name: string, f: Fingerprint)
    ensures var now := AfterUpgrade(releases, name, f, Succeeded);
      Runs(now, name, f) && Owned(now[name]) && LastApplied(now[name]) == Some(f)
  {
    OwnedConcat(HistoryOf(releases, name), Revision(true, f, true));
    LastOfConcat(HistoryOf(releases, name), Revision(true, f, true));
  }

  /** An upgrade that failed is not the last one that succeeded. */
  lemma LastKept(releases: Releases, name: string, f: Fingerprint, a: UpgradeAnswer)
    requires !a.Succeeded?
    ensures LastApplied(HistoryOf(AfterUpgrade(releases, name, f, a), name)) == LastApplied(HistoryOf(releases, name))
  {
    if a.Recorded? { LastOfConcat(HistoryOf(releases, name), Revision(a.marked, f, false)); }
  }

  // ---------- who installed what ----------

  /** The releases an upgrade of the operator left unmarked: one that failed and recorded a
      revision without the marker, on a release that had no marked one. */
  function AfterUpgradeUnmarked(unmarked: set<string>, releases: Releases, name: string, a: UpgradeAnswer)
    : set<string>
  {
    if a.NotRecorded? then unmarked
    else if a == Recorded(false) && !Owned(HistoryOf(releases, name)) then unmarked + {name}
    else unmarked - {name}
  }

  /** The release is one the operator found here and never touched. */
  predicate Found(origin: Releases, releases: Releases, name: string) {
    Foreign(origin, name) && SameAt(origin, releases, name)
  }

  /** What looks foreign is what was found here and left untouched, and what a failed
      upgrade of the operator left unmarked; everything else is recognised as its own. */
  ghost predicate Ledger(origin: Releases, releases: Releases, unmarked: set<string>) {
    forall n :: Foreign(releases, n) <==> n in unmarked || Found(origin, releases, n)
  }

  lemma LedgerUpgrade(origin: Releases, releases: Releases, unmarked: set<string>, name: string, f: Fingerprint,
                      a: UpgradeAnswer)
    requires Ledger(origin, releases, unmarked)
    ensures Ledger(origin, AfterUpgrade(releases, name, f, a), AfterUpgradeUnmarked(unmarked, releases, name, a))
  {
    var now := AfterUpgrade(releases, name, f, a);
    var left := AfterUpgradeUnmarked(unmarked, releases, name, a);
    OwnedConcat(HistoryOf(releases, name), Revision(true, f, true));
    if a.Recorded? { OwnedConcat(HistoryOf(releases, name), Revision(a.marked, f, false)); }
    forall n ensures Foreign(now, n) <==> n in left || Found(origin, now, n) {
      if n != name || a.NotRecorded? {
        assert Foreign(releases, n) <==> n in unmarked || Found(origin, releases, n);
      }
    }
  }

  lemma LedgerUninstall(origin: Releases, releases: Releases, unmarked: set<string>, name: string)
    requires Ledger(origin, releases, unmarked)
    ensures Ledger(origin, releases - {name}, unmarked - {name})
  {
    var now := releases - {name};
    forall n ensures Foreign(now, n) <==> n in unmarked - {name} || Found(origin, now, n) {
      assert Foreign(releases, n) <==> n in unmarked || Found(origin, releases, n);
    }
  }

  // ---------- the cluster ----------

  /** Ready workloads and all workloads of a release, by its name. */
  type Workloads = map<string, (nat, nat)>

  /** `ready_from_counts`: no workload at all is no evidence that anything runs. */
  predicate Serving(workloads: Workloads, name: string) {
    name in workloads && workloads[name].1 > 0 && workloads[name].0 == workloads[name].1
  }

  class Cluster {
    var releases: Releases
    var workloads: Workloads
    /** Volume name -> whether it carries the storage chart's label. */
    var volumes: map<string, bool>
    var database: bool
    /** The releases as the operator found them. */
    ghost const origin: Releases
    /** The releases whose last upgrade by the operator failed and left no marker. */
    ghost var unmarked: set<string>
    /** The releases whose history could not be read although they were there. */
    ghost var blind: set<string>
    /** The requests that failed so far, those apart that read a history, a status or workloads. */
    ghost var faults: nat

    ghost predicate Valid()
      reads this
    {
      WellFormed(releases) && Ledger(origin, releases, unmarked)
    }

    constructor (releases: Releases, workloads: Workloads, volumes: map<string, bool>, database: bool)
      requires WellFormed(releases)
      ensures Valid() && this.releases == releases && this.workloads == workloads && this.volumes == volumes
      ensures this.database == database && origin == releases && unmarked == {} && blind == {} && faults == 0
    {
      this.releases, this.workloads, this.volumes, this.database := releases, workloads, volumes, database;
      origin, unmarked, blind, faults := releases, {}, {}, 0;
    }

    /** `helm history`: fails for a release that is not there, and may fail anyway. */
    method History(name: string) returns (history: Option<seq<Revision>>)
      modifies this`blind
      ensures history.Some? ==> name in releases && history.value == releases[name] && blind == old(blind)
      ensures history == None ==> blind == old(blind) + if name in releases then {name} else {}
    {
      var readable: bool := *;
      if readable && name in releases {
        history := Some(releases[name]);
      } else {
        history := None;
        blind := blind + if name in releases then {name} else {};
      }
    }

    /** `helm status`: whether the release is deployed; `None` is a failure. */
    method Status(name: string) returns (deployed: Option<bool>)
      ensures deployed.Some? ==> deployed.value == Deployed(releases, name)
    {
      var readable: bool := *;
      deployed := if readable && name in releases then Some(Deployed(releases, name)) else None;
    }

    /** `helm upgrade --install`, with the operator's description. Workloads come and go
        with it; a dry run changes nothing. */
    method Upgrade(name: string, f: Fingerprint, dryRun: bool) returns (ok: bool, ghost answer: UpgradeAnswer)
      requires Valid() && Describes(f.args, OWNER_MARKER)
      modifies this`releases, this`workloads, this`unmarked, this`faults
      ensures Valid() && faults == old(faults) + if ok then 0 else 1
      ensures ok <==> answer.Succeeded?
      ensures releases == if dryRun then old(releases) else AfterUpgrade(old(releases), name, f, answer)
      ensures unmarked ==
        if dryRun then old(unmarked) else AfterUpgradeUnmarked(old(unmarked), old(releases), name, answer)
      ensures ok ==> unmarked <= old(unmarked)
    {
      var outcome: UpgradeAnswer := *;
      answer, ok := outcome, outcome.Succeeded?;
      if !ok { faults := faults + 1; }
      if dryRun { return; }
      workloads := *;
      LedgerUpgrade(origin, releases, unmarked, name, f, outcome);
      unmarked := AfterUpgradeUnmarked(unmarked, releases, name, outcome);
      releases := AfterUpgrade(releases, name, f, outcome);
    }

    /** `helm uninstall --ignore-not-found`; a failure may come after the release is gone. */
    method Uninstall(name: string) returns (ok: bool, ghost removed: bool)
      requires Valid()
      modifies this`releases, this`unmarked, this`faults
      ensures Valid() && faults == old(faults) + if ok then 0 else 1
      ensures releases == if removed then old(releases) - {name} else old(releases)
      ensures unmarked == if removed then old(unmarked) - {name} else old(unmarked)
      ensures ok ==> removed
    {
      var late: bool := *;
      ok := *;
      removed := late || ok;
      if late || ok {
        LedgerUninstall(origin, releases, unmarked, name);
        releases, unmarked := releases - {name}, unmarked - {name};
      }
      if !ok { faults := faults + 1; }
    }

    /** The ready and the total number of a release's workloads; `None` is a failure. */
    method CountWorkloads(name: string) returns (counts: Option<(nat, nat)>)
      ensures counts.Some? ==> name in workloads && counts.value == workloads[name]
    {
      var readable: bool := *;
      counts := if readable && name in workloads then Some(workloads[name]) else None;
    }

    /** The volumes with the storage chart's label. */
    method ListLabelled() returns (names: Option<set<string>>)
      modifies this`faults
      ensures names.Some? ==> names.value == (set v | v in volumes && volumes[v]) && faults == old(faults)
      ensures names == None ==> faults > old(faults)
    {
      var readable: bool := *;
      names := if readable then Some(set v | v in volumes && volumes[v]) else None;
      if !readable { faults := faults + 1; }
    }

    /** `delete_ignoring_not_found` of a volume. */
    method DeleteVolume(name: string) returns (ok: bool)
      modifies this`volumes, this`faults
      ensures volumes == old(volumes) || volumes == old(volumes) - {name}
      ensures ok ==> name !in volumes && faults == old(faults)
      ensures !ok ==> faults > old(faults)
    {
      var removed: bool := *;
      ok := *;
      if removed || ok { volumes := volumes - {name}; }
      if !ok { faults := faults + 1; }
    }

    /** `delete_ignoring_not_found` of the catalog database. */
    method DeleteDatabase() returns (ok: bool)
      modifies this`database, this`faults
      ensures database ==> old(database)
      ensures ok ==> !database && faults == old(faults)
      ensures !ok ==> faults > old(faults)
    {
      var removed: bool := *;
      ok := *;
      if removed || ok { database := false; }
      if !ok { faults := faults + 1; }
    }
  }
}
