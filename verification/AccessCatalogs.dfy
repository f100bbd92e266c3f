/** Step 4 of a tick: each Catalog's warehouse, its grants and its status. */
module AccessCatalogs {
  import opened Text
  import opened AccessModel
  import opened AccessTable
  import opened LakekeeperApi
  import opened AccessJob
  import opened AccessRoles
  import opened KubeApi
  import RG = ResourceGroups
  import SP = StatusPatch
  import Json

  const RESERVED_NAMES: set<string> := {"system", "information_schema", "memory", "tpch", "tpcds", "jmx"}

  predicate CatalogNameMatches(name: string) {
    var n := RG.WithoutFinalNewline(name);
    1 <= |n| <= 40 && Lower(n[0]) && forall c | c in n :: Lower(c) || Digit(c)
  }

  /** `catalog_problem`: the first rule the object breaks, as reason and message. */
  function CatalogProblem(c: Catalog, bucket: string): Option<(string, string)> {
    if !CatalogNameMatches(c.name) then
      Some(("InvalidName", "catalog name `" + c.name + "` must be 1 to 40 lower-case letters and digits"))
    else if c.name in RESERVED_NAMES then Some(("ReservedName", "catalog name `" + c.name + "` is reserved"))
    else if c.spec.bucket != "" && c.spec.bucket != bucket then
      Some(("BucketsNotBuilt", "storage.bucket `" + c.spec.bucket + "` is not the platform bucket `" + bucket + "`"))
    else None
  }

  /** 1 to 40 lower-case letters and digits, the first one a letter; the pattern lets a final
      line break through. */
  ghost predicate CatalogName(name: string) {
    exists n: string :: (name == n || name == n + "\n") && RG.BareName(n) && '-' !in n
  }

  lemma CatalogNameExactly(name: string)
    ensures CatalogNameMatches(name) <==> CatalogName(name)
  {
    RG.FinalNewline(name);
    RG.BareExactly(RG.WithoutFinalNewline(name));
    if n: string :| (name == n || name == n + "\n") && RG.BareName(n) && '-' !in n {
      assert n[|n| - 1] != '\n';
      if name == n { RG.NoFinalNewline(name); }
    }
  }

  /** The Catalog breaks no rule of its own: its name, and the bucket it asks for. */
  ghost predicate MayStand(c: Catalog, bucket: string) {
    && CatalogName(c.name) && c.name !in RESERVED_NAMES
    && (c.spec.bucket == "" || c.spec.bucket == bucket)
  }

  /** A Catalog has a problem exactly when it may not stand, and its reason says which rule
      it breaks: the name's form comes before the reserved names, and those before the bucket. */
  lemma ProblemExactly(c: Catalog, bucket: string)
    ensures CatalogProblem(c, bucket) == None <==> MayStand(c, bucket)
    ensures CatalogProblem(c, bucket).Some? ==>
      var reason := CatalogProblem(c, bucket).value.0;
      && (reason == "InvalidName" <==> !CatalogName(c.name))
      && (reason == "ReservedName" <==> CatalogName(c.name) && c.name in RESERVED_NAMES)
      && (reason == "BucketsNotBuilt" <==> CatalogName(c.name) && c.name !in RESERVED_NAMES)
  {
    CatalogNameExactly(c.name);
    if CatalogProblem(c, bucket).Some? {
      var texts := ["InvalidName", "ReservedName", "BucketsNotBuilt"];
      assert |texts[0]| == 11 && |texts[1]| == 12 && |texts[2]| == 15;
    }
  }

  datatype Verdict = Verdict(ready: bool, reason: string, message: string)

  /** Whether a Catalog's grants may be applied: not while one of its groups is unknown or
      has a problem. */
  function GrantVerdict(spec: CatalogSpec, unknown: set<string>, problems: Problems): Verdict {
    var unresolved := DeclaredGroups(spec) * unknown;
    var blocked := DeclaredGroups(spec) * problems.Keys;
    if unresolved != {} then Verdict(false, "UnknownGroup", "the realm has no group `" + Least(unresolved) + "`")
    else if blocked != {} then Verdict(false, problems[Least(blocked)].reason, problems[Least(blocked)].message)
    else Verdict(true, "Ready", Decimal(|DesiredPairs(spec)|) + " declared grant(s) on the warehouse")
  }

  /** The owner of a Catalog, or a group one of its grants names. */
  predicate NamesGroup(spec: CatalogSpec, g: string) {
    g != "" && (spec.owner == g || exists i | 0 <= i < |spec.grants| :: spec.grants[i].group == g)
  }

  /** None of the groups a spec names is unknown to the realm or has a problem. */
  ghost predicate GroupsClear(spec: CatalogSpec, unknown: set<string>, problems: Problems) {
    forall g :: NamesGroup(spec, g) ==> g !in unknown && g !in problems
  }

  /** Grants may be applied exactly when the groups are clear. Otherwise the first of the
      unknown groups is named, and when all are known the first group with a problem gives
      its reason and message. */
  lemma VerdictExactly(spec: CatalogSpec, unknown: set<string>, problems: Problems)
    ensures var v := GrantVerdict(spec, unknown, problems);
      && (v.ready <==> GroupsClear(spec, unknown, problems))
      && (v.ready ==> v.reason == "Ready")
      && (!v.ready ==> exists g :: Blocks(spec, unknown, problems, v, g))
  {
    var unresolved, blocked := DeclaredGroups(spec) * unknown, DeclaredGroups(spec) * problems.Keys;
    GroupsDeclared(spec);
    assert forall g :: g in unresolved <==> NamesGroup(spec, g) && g in unknown;
    assert forall g :: g in blocked <==> NamesGroup(spec, g) && g in problems;
    if unresolved != {} {
      assert NamesGroup(spec, Least(unresolved));
      assert Blocks(spec, unknown, problems, GrantVerdict(spec, unknown, problems), Least(unresolved));
    } else if blocked != {} {
      assert NamesGroup(spec, Least(blocked));
      assert Blocks(spec, unknown, problems, GrantVerdict(spec, unknown, problems), Least(blocked));
    }
  }

  lemma PublishableExactly(c: Catalog, bucket: string, unknown: set<string>, problems: Problems)
    ensures Publishable(c, bucket, unknown, problems) <==>
            CatalogProblem(c, bucket) == None && GrantVerdict(c.spec, unknown, problems).ready
  {
    ProblemExactly(c, bucket);
    VerdictExactly(c.spec, unknown, problems);
  }

  /** `g` is the group that keeps the grants from being applied, and the verdict says so. */
  ghost predicate Blocks(spec: CatalogSpec, unknown: set<string>, problems: Problems, v: Verdict, g: string) {
    && NamesGroup(spec, g)
    && if exists h :: NamesGroup(spec, h) && h in unknown then
         && g in unknown && (forall h :: NamesGroup(spec, h) && h in unknown && h != g ==> Less(g, h))
         && v.reason == "UnknownGroup" && v.message == "the realm has no group `" + g + "`"
       else
         && g in problems && (forall h :: NamesGroup(spec, h) && h in problems && h != g ==> Less(g, h))
         && v.reason == problems[g].reason && v.message == problems[g].message
  }

  lemma GroupsDeclared(spec: CatalogSpec)
    ensures forall g :: g in DeclaredGroups(spec) <==> NamesGroup(spec, g)
  {
  }

  /** Only the warehouse of this name may have changed, or been created. */
  ghost predicate OnlyWarehouse(a: Lakekeeper, b: Lakekeeper, name: string) {
    b.roles == a.roles && b.project == a.project
    && a.warehouses.Keys <= b.warehouses.Keys <= a.warehouses.Keys + {name}
    && forall c :: c in a.warehouses && c != name ==> b.warehouses[c] == a.warehouses[c]
  }

  /** What the Lakekeeper side of one Catalog came to. */
  datatype CatalogResult = NoWarehouse | GrantsRefused | GrantsRead(foreign: nat) | CatalogEnds

  /** The grants of one warehouse, with what they are afterwards. */
  method SyncGrants(job: Job, name: string, spec: CatalogSpec, ready: bool, ids: RoleIds, managed: set<RoleId>)
    returns (result: CatalogResult)
    requires job.Valid() && job.RolesKnown(ids, managed)
    modifies job, job.remote
    ensures job.Valid() && old(job.remote.history) <= job.remote.history
    ensures Keeps(old(job.remote.lk), job.remote.lk, {}, {name}) && result != NoWarehouse
    ensures ready && result.GrantsRead? ==>
      name in job.remote.lk.warehouses &&
      RoleGrants(RolePairs(DesiredPairs(spec), ids)) <= job.remote.lk.warehouses[name]
    ensures job.remote.quiet && !result.CatalogEnds? ==> OnlyWarehouse(old(job.remote.lk), job.remote.lk, name)
    ensures job.remote.quiet && result.GrantsRead? ==>
      name in job.remote.lk.warehouses && result.foreign == |ForeignGrants(job.remote.lk, name, job.own)|
    ensures job.remote.quiet && ready && result.GrantsRead? ==>
      GrantsAre(job.remote.lk, name, RolePairs(DesiredPairs(spec), ids))
    ensures job.remote.quiet && NothingToGrant(old(job.remote.lk), name, ready, RolePairs(DesiredPairs(spec), ids)) ==>
      job.Untouched()
    ensures old(job.remote.faults) <= job.remote.faults
    ensures job.remote.faults == old(job.remote.faults) ==> result.GrantsRead?
  {
    ghost var before := job.remote.lk;
    var desired := DesiredRelations(spec);
    var synced := job.SyncWarehouseGrants(name, desired, ids, managed, ready);
    match synced
    case Ended => result := CatalogEnds;
    case Err(_) => result := GrantsRefused;
    case Ok(counts) =>
      result := GrantsRead(counts.foreign);
      if job.remote.quiet && ready {
        ConvergedIsExact(before, name, managed, RolePairs(desired, ids), job.own);
      }
  }

  ghost predicate NothingToGrant(lk: Lakekeeper, name: string, ready: bool, declared: set<(Relation, RoleId)>) {
    name in lk.warehouses && (ready ==> GrantsAre(lk, name, declared))
  }

  /** The Catalog's warehouse and, when the verdict allows, its grants. */
  method SyncCatalogGrants(job: Job, name: string, spec: CatalogSpec, ready: bool, ids: RoleIds, managed: set<RoleId>)
    returns (result: CatalogResult)
    requires job.Valid() && job.RolesKnown(ids, managed)
    modifies job, job.remote
    ensures job.Valid() && old(job.remote.history) <= job.remote.history
    ensures Keeps(old(job.remote.lk), job.remote.lk, {}, {name})
    ensures ready && result.GrantsRead? ==>
      name in job.remote.lk.warehouses &&
      RoleGrants(RolePairs(DesiredPairs(spec), ids)) <= job.remote.lk.warehouses[name]
    ensures job.remote.quiet && !result.CatalogEnds? ==> OnlyWarehouse(old(job.remote.lk), job.remote.lk, name)
    ensures job.remote.quiet && result.GrantsRead? ==>
      name in job.remote.lk.warehouses && result.foreign == |ForeignGrants(job.remote.lk, name, job.own)|
    ensures job.remote.quiet && ready && result.GrantsRead? ==>
      GrantsAre(job.remote.lk, name, RolePairs(DesiredPairs(spec), ids))
    ensures job.remote.quiet && NothingToGrant(old(job.remote.lk), name, ready, RolePairs(DesiredPairs(spec), ids)) ==>
      job.Untouched() && result != NoWarehouse
    ensures old(job.remote.faults) <= job.remote.faults
    ensures job.remote.faults == old(job.remote.faults) ==> result.GrantsRead?
  {
    var made := job.EnsureWarehouse(name);
    if made.Ended? { return CatalogEnds; }
    if !made.value { return NoWarehouse; }
    ghost var there := job.remote.lk;
    result := SyncGrants(job, name, spec, ready, ids, managed);
    KeepsTransitive(old(job.remote.lk), there, job.remote.lk, {}, {}, {}, {name});
  }

  function InvalidWanted(problem: (string, string)): (w: SP.Wanted)
    ensures SP.WellFormed(w, CATALOG_CONDITIONS)
  {
    CatalogWanted("Invalid", None, problem.0, problem.1, None)
  }

  function ReadyWanted(name: string, v: Verdict, foreign: nat): (w: SP.Wanted)
    ensures SP.WellFormed(w, CATALOG_CONDITIONS)
  {
    CatalogWanted("Ready", Some(name), "Ready", "Lakekeeper warehouse " + name,
                  Some(GrantReport(v.ready, v.reason, v.message, foreign)))
  }

  /** The status of a Catalog that breaks a rule says which, and nothing about grants. */
  ghost predicate InvalidSaid(resource: Json.Json, reason: string) {
    var ours := CatalogConditions(resource);
    && CatalogHead(resource, "Invalid", Json.Null)
    && |ours| == 1 && Reads(resource, ours[0], "CatalogReady", false, reason)
  }

  /** The status of a Catalog with a warehouse: whether its grants stand and why, and
      whether somebody else holds grants there. */
  ghost predicate ReadySaid(resource: Json.Json, name: string, ready: bool, reason: string, foreign: bool) {
    var ours := CatalogConditions(resource);
    && CatalogHead(resource, "Ready", Json.Str(name))
    && |ours| == 3 && Reads(resource, ours[0], "CatalogReady", true, "Ready")
    && Reads(resource, ours[1], "GrantsReady", ready, reason)
    && Reads(resource, ours[2], "Drift", foreign, if foreign then "ForeignGrants" else "Clean")
  }

  lemma InvalidStatus(resource: Json.Json, problem: (string, string))
    requires SP.StatusTells(resource, InvalidWanted(problem), CATALOG_CONDITIONS)
    ensures InvalidSaid(resource, problem.0)
  {
    HeadTells(resource, "Invalid", None, problem.0, problem.1, None);
    OneConditionTells(resource, "Invalid", problem.0, problem.1);
  }

  lemma ReadyStatus(resource: Json.Json, name: string, v: Verdict, foreign: nat)
    requires SP.StatusTells(resource, ReadyWanted(name, v, foreign), CATALOG_CONDITIONS)
    ensures ReadySaid(resource, name, v.ready, v.reason, foreign > 0)
  {
    var grants, text := GrantReport(v.ready, v.reason, v.message, foreign), "Lakekeeper warehouse " + name;
    HeadTells(resource, "Ready", Some(name), "Ready", text, Some(grants));
    ConditionsTell(resource, "Ready", Some(name), "Ready", text, grants);
  }

  /** The live Catalog objects, by name. */
  type Statuses = map<string, Json.Json>

  /** Nothing is left to write for one Catalog, given the problems of the groups. */
  ghost predicate CatalogSettled(lk: Lakekeeper, statuses: Statuses, c: Catalog, bucket: string, unknown: set<string>,
                                 roles: Roles, own: Option<string>) {
    var problem := CatalogProblem(c, bucket);
    if problem.Some? then Says(statuses, c.name, InvalidWanted(problem.value), CATALOG_CONDITIONS)
    else ValidSettled(lk, statuses, c, GrantVerdict(c.spec, unknown, roles.problems), roles, own)
  }

  /** The same for a Catalog that breaks no rule, given its verdict. */
  ghost predicate ValidSettled(lk: Lakekeeper, statuses: Statuses, c: Catalog, v: Verdict, roles: Roles,
                               own: Option<string>) {
    && NothingToGrant(lk, c.name, v.ready, RolePairs(DesiredPairs(c.spec), roles.ids))
    && Says(statuses, c.name, ReadyWanted(c.name, v, |ForeignGrants(lk, c.name, own)|), CATALOG_CONDITIONS)
  }

  /** The Catalog breaks no rule of its own, and the groups it names are clear. */
  ghost predicate Publishable(c: Catalog, bucket: string, unknown: set<string>, problems: Problems) {
    MayStand(c, bucket) && GroupsClear(c.spec, unknown, problems)
  }

  predicate IsPublished(p: Published, c: Catalog) {
    p.name == c.name && p.spec == c.spec
  }

  /** The declared grants are on the warehouse; alone, and with the drift counted, when
      nobody else writes. */
  ghost predicate WasGranted(lk: Lakekeeper, quiet: bool, p: Published, ids: RoleIds, own: Option<string>) {
    && p.name in lk.warehouses
    && RoleGrants(RolePairs(DesiredPairs(p.spec), ids)) <= lk.warehouses[p.name]
    && (quiet ==> GrantsAre(lk, p.name, RolePairs(DesiredPairs(p.spec), ids))
                  && p.foreign == |ForeignGrants(lk, p.name, own)|)
  }

  /** What one Catalog came to: the Catalog as published, if its grants were applied. */
  datatype CatalogOutcome = CatalogOutcome(ended: bool, failed: bool, published: Option<Published>)

  /** The status of one Catalog whose grants were read or refused. */
  method ReportCatalog(kube: Kube, name: string, v: Verdict, result: CatalogResult) returns (patched: Outcome)
    requires kube.Valid() && (result.GrantsRefused? || result.GrantsRead?)
    modifies kube`catalogs, kube`writes, kube`faults
    ensures kube.Valid()
    ensures result.GrantsRead? && patched.Done? ==> kube.CatalogSays(name, ReadyWanted(name, v, result.foreign))
    ensures result.GrantsRead? && old(kube.CatalogSays(name, ReadyWanted(name, v, result.foreign))) ==>
      kube.catalogs == old(kube.catalogs) && kube.writes == old(kube.writes)
    ensures OtherCatalogsKept(old(kube.catalogs), kube.catalogs, name)
    ensures kube.faults == old(kube.faults) + if patched.Done? then 0 else 1
  {
    var w := if result.GrantsRead? then ReadyWanted(name, v, result.foreign)
             else ReadyWanted(name, Verdict(false, GRANTS_FAILED.reason, GRANTS_FAILED.message), 0);
    patched := kube.PatchStatus(name, w);
  }

  ghost predicate OtherCatalogsKept(a: Statuses, b: Statuses, name: string) {
    a.Keys == b.Keys && forall n :: n in a && n != name ==> b[n] == a[n]
  }

  /** Step 4 for one Catalog that breaks no rule. */
  method SyncValidCatalog(job: Job, kube: Kube, c: Catalog, v: Verdict, roles: Roles, managed: set<RoleId>)
    returns (outcome: CatalogOutcome)
    requires job.Valid() && kube.Valid() && job.RolesKnown(roles.ids, managed)
    modifies job, job.remote, kube`catalogs, kube`writes, kube`faults
    ensures job.Valid() && kube.Valid() && old(job.remote.history) <= job.remote.history
    ensures OtherCatalogsKept(old(kube.catalogs), kube.catalogs, c.name)
    ensures Keeps(old(job.remote.lk), job.remote.lk, {}, {c.name})
    ensures !outcome.ended && !outcome.failed && v.ready ==> outcome.published.Some?
    ensures outcome.published.Some? ==>
      v.ready && IsPublished(outcome.published.value, c) &&
      WasGranted(job.remote.lk, job.remote.quiet, outcome.published.value, roles.ids, job.own)
    ensures job.remote.quiet && !outcome.ended ==> OnlyWarehouse(old(job.remote.lk), job.remote.lk, c.name)
    ensures job.remote.quiet && !outcome.ended && !outcome.failed ==>
      ValidSettled(job.remote.lk, kube.catalogs, c, v, roles, job.own)
    ensures (job.remote.quiet &&
             NothingToGrant(old(job.remote.lk), c.name, v.ready, RolePairs(DesiredPairs(c.spec), roles.ids))) ==>
      job.Untouched()
    ensures (job.remote.quiet && !outcome.failed &&
             old(ValidSettled(job.remote.lk, kube.catalogs, c, v, roles, job.own))) ==>
      kube.catalogs == old(kube.catalogs) && kube.writes == old(kube.writes)
    ensures old(job.remote.faults) <= job.remote.faults && old(kube.faults) <= kube.faults
    ensures job.remote.faults == old(job.remote.faults) && kube.faults == old(kube.faults) ==>
      !outcome.ended && !outcome.failed
  {
    var result := SyncCatalogGrants(job, c.name, c.spec, v.ready, roles.ids, managed);
    if result.CatalogEnds? || result.NoWarehouse? {
      return CatalogOutcome(result.CatalogEnds?, result.NoWarehouse?, None);
    }
    var patched := ReportCatalog(kube, c.name, v, result);
    outcome := CatalogOutcome(patched.Failed?, result.GrantsRefused?,
                              if v.ready && result.GrantsRead? then Some(Published(c.name, c.spec, result.foreign))
                              else None);
  }

  /** Nothing to write in Lakekeeper for one Catalog. */
  ghost predicate CatalogCalm(lk: Lakekeeper, c: Catalog, bucket: string, unknown: set<string>, roles: Roles) {
    CatalogProblem(c, bucket) == None ==>
      NothingToGrant(lk, c.name, GrantVerdict(c.spec, unknown, roles.problems).ready,
                     RolePairs(DesiredPairs(c.spec), roles.ids))
  }

  /** When the groups of a spec are clear, every declared group's role is synced. */
  lemma ReadyGroupsSynced(lk: Lakekeeper, quiet: bool, c: Catalog, unknown: set<string>, groups: set<string>,
                          roles: Roles, members: Members, fixed: Members)
    requires DeclaredGroups(c.spec) <= groups + unknown
    requires RolesDone(lk, groups, roles, members, fixed)
    requires quiet ==> QuietDone(lk, groups, roles, members, fixed)
    requires GroupsClear(c.spec, unknown, roles.problems)
    ensures forall g :: g in DeclaredGroups(c.spec) ==> GroupSynced(lk, roles.ids, g, members, fixed)
    ensures quiet ==> forall g :: g in DeclaredGroups(c.spec) ==>
      g in roles.ids && RoleExact(lk, roles.ids[g], g, GroupUsers(g, members, fixed))
  {
    GroupsDeclared(c.spec);
    forall g | g in DeclaredGroups(c.spec) ensures g in groups && g !in roles.problems {
      assert NamesGroup(c.spec, g);
    }
  }

  /** Step 4 for one Catalog that breaks a rule. */
  method ReportProblem(kube: Kube, name: string, problem: (string, string)) returns (outcome: CatalogOutcome)
    requires kube.Valid()
    modifies kube`catalogs, kube`writes, kube`faults
    ensures kube.Valid() && OtherCatalogsKept(old(kube.catalogs), kube.catalogs, name)
    ensures outcome == CatalogOutcome(outcome.ended, false, None)
    ensures !outcome.ended ==> Says(kube.catalogs, name, InvalidWanted(problem), CATALOG_CONDITIONS)
    ensures Says(old(kube.catalogs), name, InvalidWanted(problem), CATALOG_CONDITIONS) ==>
      kube.catalogs == old(kube.catalogs) && kube.writes == old(kube.writes)
    ensures kube.faults == old(kube.faults) + if outcome.ended then 1 else 0
  {
    var patched := kube.PatchStatus(name, InvalidWanted(problem));
    outcome := CatalogOutcome(patched.Failed?, false, None);
  }

  /** Step 4 for one Catalog. */
  method SyncCatalog(job: Job, kube: Kube, c: Catalog, bucket: string, unknown: set<string>, roles: Roles,
                     managed: set<RoleId>)
    returns (outcome: CatalogOutcome)
    requires job.Valid() && kube.Valid() && job.RolesKnown(roles.ids, managed)
    modifies job, job.remote, kube`catalogs, kube`writes, kube`faults
    ensures job.Valid() && kube.Valid() && old(job.remote.history) <= job.remote.history
    ensures OtherCatalogsKept(old(kube.catalogs), kube.catalogs, c.name)
    ensures Keeps(old(job.remote.lk), job.remote.lk, {}, {c.name})
    ensures !outcome.ended && !outcome.failed && Publishable(c, bucket, unknown, roles.problems) ==>
      outcome.published.Some?
    ensures outcome.published.Some? ==>
      Publishable(c, bucket, unknown, roles.problems) && IsPublished(outcome.published.value, c) &&
      WasGranted(job.remote.lk, job.remote.quiet, outcome.published.value, roles.ids, job.own)
    ensures job.remote.quiet && !outcome.ended ==> OnlyWarehouse(old(job.remote.lk), job.remote.lk, c.name)
    ensures job.remote.quiet && !outcome.ended && !outcome.failed ==>
      CatalogSettled(job.remote.lk, kube.catalogs, c, bucket, unknown, roles, job.own)
    ensures job.remote.quiet && CatalogCalm(old(job.remote.lk), c, bucket, unknown, roles) ==> job.Untouched()
    ensures (job.remote.quiet && !outcome.failed &&
             old(CatalogSettled(job.remote.lk, kube.catalogs, c, bucket, unknown, roles, job.own))) ==>
      kube.catalogs == old(kube.catalogs) && kube.writes == old(kube.writes)
    ensures old(job.remote.faults) <= job.remote.faults && old(kube.faults) <= kube.faults
    ensures job.remote.faults == old(job.remote.faults) && kube.faults == old(kube.faults) ==>
      !outcome.ended && !outcome.failed
  {
    var problem := CatalogProblem(c, bucket);
    PublishableExactly(c, bucket, unknown, roles.problems);
    if problem.Some? {
      Unchanged(job.remote.lk, job.remote.client);
      outcome := ReportProblem(kube, c.name, problem.value);
      return;
    }
    outcome := SyncValidCatalog(job, kube, c, GrantVerdict(c.spec, unknown, roles.problems), roles, managed);
  }

  // ---------- step 4: the loop ----------

  ghost predicate DistinctCatalogs(catalogs: seq<Catalog>) {
    forall i, j :: 0 <= i < j < |catalogs| ==> catalogs[i].name != catalogs[j].name
  }

  /** `p` is one of the first `k` Catalogs. */
  ghost predicate AmongFirst(p: Published, catalogs: seq<Catalog>, k: nat)
    requires k <= |catalogs|
  {
    exists i :: 0 <= i < k && IsPublished(p, catalogs[i])
  }

  ghost predicate MayPublish(lk: Lakekeeper, quiet: bool, p: Published, bucket: string, unknown: set<string>,
                             roles: Roles, own: Option<string>) {
    WasGranted(lk, quiet, p, roles.ids, own) && Publishable(Catalog(p.name, p.spec), bucket, unknown, roles.problems)
  }

  /** Every Catalog among the first `k` that may be published is. */
  ghost predicate AllPublished(published: seq<Published>, catalogs: seq<Catalog>, k: nat, bucket: string,
                               unknown: set<string>, problems: Problems)
    requires k <= |catalogs|
  {
    forall i :: 0 <= i < k && Publishable(catalogs[i], bucket, unknown, problems) ==>
      Covered(published, catalogs[i])
  }

  predicate Covered(published: seq<Published>, c: Catalog) {
    exists p | p in published :: IsPublished(p, c)
  }

  lemma CoveredMore(published: seq<Published>, next: Option<Published>, c: Catalog)
    requires Covered(published, c)
    ensures Covered(Append(published, next), c)
  {
    var p :| p in published && IsPublished(p, c);
    assert p in Append(published, next);
  }

  /** What may be published after the first `k` Catalogs. */
  ghost predicate PublishedSoFar(lk: Lakekeeper, quiet: bool, published: seq<Published>, catalogs: seq<Catalog>, k: nat,
                                 bucket: string, unknown: set<string>, roles: Roles, own: Option<string>)
    requires k <= |catalogs|
  {
    && AccessTable.DistinctNames(published)
    && (forall p :: p in published ==> MayPublish(lk, quiet, p, bucket, unknown, roles, own))
    && (forall p :: p in published ==> AmongFirst(p, catalogs, k))
  }

  ghost predicate SettledSoFar(lk: Lakekeeper, statuses: Statuses, catalogs: seq<Catalog>, k: nat, bucket: string,
                               unknown: set<string>, roles: Roles, own: Option<string>)
    requires k <= |catalogs|
  {
    forall i :: 0 <= i < k ==> CatalogSettled(lk, statuses, catalogs[i], bucket, unknown, roles, own)
  }

  lemma GrantedKept(a: Lakekeeper, b: Lakekeeper, quiet: bool, name: string, p: Published, ids: RoleIds,
                    own: Option<string>)
    requires Keeps(a, b, {}, {name}) && (quiet ==> OnlyWarehouse(a, b, name)) && p.name != name
    requires forall g :: g in ids ==> ManagedRole(a, ids[g])
    requires WasGranted(a, quiet, p, ids, own)
    ensures WasGranted(b, quiet, p, ids, own)
  {
    var pairs := RolePairs(DesiredPairs(p.spec), ids);
    forall g | g in RoleGrants(pairs) ensures g in b.warehouses[p.name] {
      InRoleGrants(pairs, g);
      assert ManagedSubject(a, g.subject);
    }
    if quiet {
      assert ManagedGrants(b, p.name) == ManagedGrants(a, p.name);
      assert ForeignGrants(b, p.name, own) == ForeignGrants(a, p.name, own);
    }
  }

  lemma AmongMore(p: Published, catalogs: seq<Catalog>, k: nat)
    requires k < |catalogs| && DistinctCatalogs(catalogs) && AmongFirst(p, catalogs, k)
    ensures AmongFirst(p, catalogs, k + 1) && p.name != catalogs[k].name
  {
  }

  lemma PublishedNames(published: seq<Published>, next: Published, catalogs: seq<Catalog>, k: nat)
    requires k < |catalogs| && DistinctCatalogs(catalogs) && AccessTable.DistinctNames(published)
    requires forall p :: p in published ==> AmongFirst(p, catalogs, k)
    requires IsPublished(next, catalogs[k])
    ensures AccessTable.DistinctNames(published + [next])
  {
    forall i | 0 <= i < |published| ensures published[i].name != next.name {
      AmongMore(published[i], catalogs, k);
    }
  }

  lemma PublishedStep(a: Lakekeeper, b: Lakekeeper, quiet: bool, published: seq<Published>, next: Option<Published>,
                      catalogs: seq<Catalog>, k: nat, bucket: string, unknown: set<string>, roles: Roles,
                      own: Option<string>)
    requires k < |catalogs| && DistinctCatalogs(catalogs)
    requires PublishedSoFar(a, quiet, published, catalogs, k, bucket, unknown, roles, own)
    requires Keeps(a, b, {}, {catalogs[k].name}) && (quiet ==> OnlyWarehouse(a, b, catalogs[k].name))
    requires forall g :: g in roles.ids ==> ManagedRole(a, roles.ids[g])
    requires next.Some? ==>
      IsPublished(next.value, catalogs[k]) && MayPublish(b, quiet, next.value, bucket, unknown, roles, own)
    ensures PublishedSoFar(b, quiet, published + (if next.Some? then [next.value] else []), catalogs, k + 1, bucket,
                           unknown, roles, own)
  {
    forall p | p in published
      ensures MayPublish(b, quiet, p, bucket, unknown, roles, own) && AmongFirst(p, catalogs, k + 1)
    {
      AmongMore(p, catalogs, k);
      GrantedKept(a, b, quiet, catalogs[k].name, p, roles.ids, own);
    }
    if next.Some? {
      PublishedNames(published, next.value, catalogs, k);
    } else {
      assert published + [] == published;
    }
  }

  lemma GrantsKept(a: Lakekeeper, b: Lakekeeper, c: string, name: string, own: Option<string>)
    requires OnlyWarehouse(a, b, name) && c != name && c in a.warehouses
    ensures c in b.warehouses
    ensures ManagedGrants(b, c) == ManagedGrants(a, c) && ForeignGrants(b, c, own) == ForeignGrants(a, c, own)
  {
    assert b.warehouses[c] == a.warehouses[c];
  }

  lemma ValidSettledKept(a: Lakekeeper, b: Lakekeeper, s: Statuses, t: Statuses, c: Catalog, v: Verdict, name: string,
                         roles: Roles, own: Option<string>)
    requires OnlyWarehouse(a, b, name) && OtherCatalogsKept(s, t, name) && c.name != name
    requires ValidSettled(a, s, c, v, roles, own)
    ensures ValidSettled(b, t, c, v, roles, own)
  {
    GrantsKept(a, b, c.name, name, own);
    ghost var w := ReadyWanted(c.name, v, |ForeignGrants(a, c.name, own)|);
    assert Says(s, c.name, w, CATALOG_CONDITIONS);
    SaysKept(s, t, c.name, name, w);
  }

  lemma SaysKept(s: Statuses, t: Statuses, c: string, name: string, w: SP.Wanted)
    requires OtherCatalogsKept(s, t, name) && c != name && Says(s, c, w, CATALOG_CONDITIONS)
    ensures Says(t, c, w, CATALOG_CONDITIONS)
  {
    assert t[c] == s[c];
  }

  lemma SettledKept(a: Lakekeeper, b: Lakekeeper, s: Statuses, t: Statuses, c: Catalog, name: string, bucket: string,
                    unknown: set<string>, roles: Roles, own: Option<string>)
    requires OnlyWarehouse(a, b, name) && OtherCatalogsKept(s, t, name) && c.name != name
    requires CatalogSettled(a, s, c, bucket, unknown, roles, own)
    ensures CatalogSettled(b, t, c, bucket, unknown, roles, own)
  {
    var problem := CatalogProblem(c, bucket);
    if problem.Some? {
      SaysKept(s, t, c.name, name, InvalidWanted(problem.value));
    } else {
      ValidSettledKept(a, b, s, t, c, GrantVerdict(c.spec, unknown, roles.problems), name, roles, own);
    }
  }

  lemma SettledStep(a: Lakekeeper, b: Lakekeeper, s: Statuses, t: Statuses, catalogs: seq<Catalog>, k: nat,
                    bucket: string, unknown: set<string>, roles: Roles, own: Option<string>)
    requires k < |catalogs| && DistinctCatalogs(catalogs)
    requires SettledSoFar(a, s, catalogs, k, bucket, unknown, roles, own)
    requires OnlyWarehouse(a, b, catalogs[k].name) && OtherCatalogsKept(s, t, catalogs[k].name)
    requires CatalogSettled(b, t, catalogs[k], bucket, unknown, roles, own)
    ensures SettledSoFar(b, t, catalogs, k + 1, bucket, unknown, roles, own)
  {
    forall i | 0 <= i < k ensures CatalogSettled(b, t, catalogs[i], bucket, unknown, roles, own) {
      SettledKept(a, b, s, t, catalogs[i], catalogs[k].name, bucket, unknown, roles, own);
    }
  }

  function CatalogNames(catalogs: seq<Catalog>): set<string> {
    set i | 0 <= i < |catalogs| :: catalogs[i].name
  }

  /** Nothing to write in Lakekeeper for any Catalog. */
  ghost predicate CatalogsCalm(lk: Lakekeeper, catalogs: seq<Catalog>, bucket: string, unknown: set<string>,
                               roles: Roles) {
    forall i :: 0 <= i < |catalogs| ==> CatalogCalm(lk, catalogs[i], bucket, unknown, roles)
  }

  /** Nothing to write for any Catalog. */
  ghost predicate CatalogsSettled(lk: Lakekeeper, statuses: Statuses, catalogs: seq<Catalog>, bucket: string,
                                  unknown: set<string>, roles: Roles, own: Option<string>) {
    SettledSoFar(lk, statuses, catalogs, |catalogs|, bucket, unknown, roles, own)
  }

  lemma SettledIsCalm(lk: Lakekeeper, statuses: Statuses, catalogs: seq<Catalog>, bucket: string,
                      unknown: set<string>, roles: Roles, own: Option<string>)
    requires CatalogsSettled(lk, statuses, catalogs, bucket, unknown, roles, own)
    ensures CatalogsCalm(lk, catalogs, bucket, unknown, roles)
  {
  }

  /** Step 4 leaves roles and the project as they were, when nobody else writes. */
  ghost predicate SameRoles(a: Lakekeeper, b: Lakekeeper) {
    b.roles == a.roles && b.project == a.project
  }

  /** Where the loop of step 4 stands after the first `k` Catalogs. */
  ghost predicate CatalogsProgress(lk: Lakekeeper, quiet: bool, statuses: Statuses, published: seq<Published>,
                                   failures: nat, catalogs: seq<Catalog>, k: nat, bucket: string, unknown: set<string>,
                                   roles: Roles,
                                   own: Option<string>)
    requires k <= |catalogs|
  {
    && PublishedSoFar(lk, quiet, published, catalogs, k, bucket, unknown, roles, own)
    && (quiet && failures == 0 ==> SettledSoFar(lk, statuses, catalogs, k, bucket, unknown, roles, own))
    && (failures == 0 ==> AllPublished(published, catalogs, k, bucket, unknown, roles.problems))
  }

  /** The list of published Catalogs after one more. */
  function Append(published: seq<Published>, next: Option<Published>): seq<Published> {
    published + if next.Some? then [next.value] else []
  }

  lemma ProgressStep(a: Lakekeeper, b: Lakekeeper, quiet: bool, s: Statuses, t: Statuses, published: seq<Published>,
                     failures: nat, outcome: CatalogOutcome, catalogs: seq<Catalog>, k: nat, bucket: string,
                     unknown: set<string>, roles: Roles, own: Option<string>)
    requires k < |catalogs| && DistinctCatalogs(catalogs)
    requires CatalogsProgress(a, quiet, s, published, failures, catalogs, k, bucket, unknown, roles, own)
    requires Keeps(a, b, {}, {catalogs[k].name}) && (quiet ==> OnlyWarehouse(a, b, catalogs[k].name))
    requires OtherCatalogsKept(s, t, catalogs[k].name)
    requires forall g :: g in roles.ids ==> ManagedRole(a, roles.ids[g])
    requires outcome.published.Some? ==>
      IsPublished(outcome.published.value, catalogs[k]) &&
      MayPublish(b, quiet, outcome.published.value, bucket, unknown, roles, own)
    requires quiet && !outcome.failed ==> CatalogSettled(b, t, catalogs[k], bucket, unknown, roles, own)
    requires !outcome.failed && Publishable(catalogs[k], bucket, unknown, roles.problems) ==> outcome.published.Some?
    ensures CatalogsProgress(b, quiet, t, Append(published, outcome.published),
                             if outcome.failed then failures + 1 else failures, catalogs, k + 1, bucket, unknown, roles,
                             own)
  {
    PublishedStep(a, b, quiet, published, outcome.published, catalogs, k, bucket, unknown, roles, own);
    if quiet && failures == 0 && !outcome.failed {
      SettledStep(a, b, s, t, catalogs, k, bucket, unknown, roles, own);
    }
    if failures == 0 && !outcome.failed {
      AllPublishedStep(published, outcome.published, catalogs, k, bucket, unknown, roles.problems);
    }
  }

  lemma AllPublishedStep(published: seq<Published>, next: Option<Published>, catalogs: seq<Catalog>, k: nat,
                         bucket: string, unknown: set<string>, problems: Problems)
    requires k < |catalogs| && AllPublished(published, catalogs, k, bucket, unknown, problems)
    requires next.Some? ==> IsPublished(next.value, catalogs[k])
    requires Publishable(catalogs[k], bucket, unknown, problems) ==> next.Some?
    ensures AllPublished(Append(published, next), catalogs, k + 1, bucket, unknown, problems)
  {
    forall i | 0 <= i < k + 1 && Publishable(catalogs[i], bucket, unknown, problems)
      ensures Covered(Append(published, next), catalogs[i])
    {
      if i < k {
        CoveredMore(published, next, catalogs[i]);
      } else {
        assert Covered([next.value], catalogs[k]);
        assert next.value in Append(published, next);
      }
    }
  }

  lemma ProgressStart(lk: Lakekeeper, quiet: bool, statuses: Statuses, catalogs: seq<Catalog>, bucket: string,
                      unknown: set<string>, roles: Roles, own: Option<string>)
    ensures CatalogsProgress(lk, quiet, statuses, [], 0, catalogs, 0, bucket, unknown, roles, own)
  {
  }

  lemma CalmAt(lk: Lakekeeper, catalogs: seq<Catalog>, k: nat, bucket: string, unknown: set<string>, roles: Roles)
    requires k < |catalogs| && CatalogsCalm(lk, catalogs, bucket, unknown, roles)
    ensures CatalogCalm(lk, catalogs[k], bucket, unknown, roles)
  {
  }

  lemma SettledAt(lk: Lakekeeper, statuses: Statuses, catalogs: seq<Catalog>, k: nat, bucket: string,
                  unknown: set<string>, roles: Roles, own: Option<string>)
    requires k < |catalogs| && CatalogsSettled(lk, statuses, catalogs, bucket, unknown, roles, own)
    ensures CatalogSettled(lk, statuses, catalogs[k], bucket, unknown, roles, own)
  {
  }

  lemma KeepsWider(a: Lakekeeper, b: Lakekeeper, c: Lakekeeper, name: string, names: set<string>)
    requires Keeps(a, b, {}, names) && Keeps(b, c, {}, {name}) && name in names
    ensures Keeps(a, c, {}, names)
  {
    KeepsTransitive(a, b, c, {}, names, {}, {name});
    assert names + {name} == names;
  }

  /** How far step 4 may have come from the state it began with. */
  ghost predicate Since(start: Lakekeeper, now: Lakekeeper, quiet: bool, names: set<string>) {
    Keeps(start, now, {}, names) && (quiet ==> SameRoles(start, now))
  }

  lemma SinceNext(start: Lakekeeper, before: Lakekeeper, now: Lakekeeper, quiet: bool, ended: bool,
                  catalogs: seq<Catalog>, k: nat)
    requires k < |catalogs| && Since(start, before, quiet, CatalogNames(catalogs))
    requires Keeps(before, now, {}, {catalogs[k].name})
    requires quiet && !ended ==> OnlyWarehouse(before, now, catalogs[k].name)
    ensures Since(start, now, quiet && !ended, CatalogNames(catalogs))
  {
    KeepsWider(start, before, now, catalogs[k].name, CatalogNames(catalogs));
  }

  lemma SinceStart(lk: Lakekeeper, quiet: bool, names: set<string>)
    ensures Since(lk, lk, quiet, names)
  {
  }

  /** The body of the loop of step 4. `calm`, `settled`: it began with nothing to write in
      Lakekeeper, or anywhere. */
  method SyncNextCatalog(job: Job, kube: Kube, catalogs: seq<Catalog>, k: nat, bucket: string, unknown: set<string>,
                         roles: Roles, managed: set<RoleId>, published: seq<Published>, failures: nat,
                         ghost calm: bool, ghost settled: bool)
    returns (outcome: CatalogOutcome)
    requires job.Valid() && kube.Valid() && job.RolesKnown(roles.ids, managed)
    requires k < |catalogs| && DistinctCatalogs(catalogs)
    requires CatalogsProgress(job.remote.lk, job.remote.quiet, kube.catalogs, published, failures, catalogs, k, bucket,
                              unknown, roles, job.own)
    requires calm ==> CatalogsCalm(job.remote.lk, catalogs, bucket, unknown, roles)
    requires settled ==> CatalogsSettled(job.remote.lk, kube.catalogs, catalogs, bucket, unknown, roles, job.own)
    modifies job, job.remote, kube`catalogs, kube`writes, kube`faults
    ensures job.Valid() && kube.Valid() && old(job.remote.history) <= job.remote.history
    ensures Keeps(old(job.remote.lk), job.remote.lk, {}, {catalogs[k].name})
    ensures job.remote.quiet && !outcome.ended ==> OnlyWarehouse(old(job.remote.lk), job.remote.lk, catalogs[k].name)
    ensures !outcome.ended ==> job.RolesKnown(roles.ids, managed)
    ensures !outcome.ended ==>
      CatalogsProgress(job.remote.lk, job.remote.quiet, kube.catalogs, Append(published, outcome.published),
                       if outcome.failed then failures + 1 else failures, catalogs, k + 1, bucket, unknown, roles,
                       job.own)
    ensures job.remote.quiet && calm ==> job.Untouched()
    ensures job.remote.quiet && settled && !outcome.failed ==>
      kube.catalogs == old(kube.catalogs) && kube.writes == old(kube.writes)
    ensures old(job.remote.faults) <= job.remote.faults && old(kube.faults) <= kube.faults
    ensures job.remote.faults == old(job.remote.faults) && kube.faults == old(kube.faults) ==>
      !outcome.ended && !outcome.failed
  {
    ghost var before, statuses := job.remote.lk, kube.catalogs;
    if calm { CalmAt(before, catalogs, k, bucket, unknown, roles); }
    if settled { SettledAt(before, statuses, catalogs, k, bucket, unknown, roles, job.own); }
    outcome := SyncCatalog(job, kube, catalogs[k], bucket, unknown, roles, managed);
    if !outcome.ended {
      RolesStayKnown(before, job.remote.lk, job.remote.quiet, roles.ids, managed, {catalogs[k].name});
      ProgressStep(before, job.remote.lk, job.remote.quiet, statuses, kube.catalogs, published, failures, outcome,
                   catalogs, k, bucket, unknown, roles, job.own);
    }
  }

  /** The loop of step 4. */
  method SyncEach(job: Job, kube: Kube, catalogs: seq<Catalog>, bucket: string, unknown: set<string>, roles: Roles,
                  managed: set<RoleId>, ghost calm: bool, ghost settled: bool)
    returns (ended: bool, published: seq<Published>, failures: nat)
    requires job.Valid() && kube.Valid() && job.RolesKnown(roles.ids, managed) && DistinctCatalogs(catalogs)
    requires calm ==> CatalogsCalm(job.remote.lk, catalogs, bucket, unknown, roles)
    requires settled ==> CatalogsSettled(job.remote.lk, kube.catalogs, catalogs, bucket, unknown, roles, job.own)
    requires settled ==> calm
    modifies job, job.remote, kube`catalogs, kube`writes, kube`faults
    ensures job.Valid() && kube.Valid() && old(job.remote.history) <= job.remote.history
    ensures Since(old(job.remote.lk), job.remote.lk, job.remote.quiet && !ended, CatalogNames(catalogs))
    ensures !ended ==>
      CatalogsProgress(job.remote.lk, job.remote.quiet, kube.catalogs, published, failures, catalogs, |catalogs|,
                       bucket, unknown, roles, job.own)
    ensures job.remote.quiet && calm ==> job.Untouched()
    ensures job.remote.quiet && failures == 0 && settled ==>
      kube.catalogs == old(kube.catalogs) && kube.writes == old(kube.writes)
    ensures old(job.remote.faults) <= job.remote.faults && old(kube.faults) <= kube.faults
    ensures job.remote.faults == old(job.remote.faults) && kube.faults == old(kube.faults) ==> !ended && failures == 0
  {
    ended, published, failures := false, [], 0;
    ghost var start, statuses := job.remote.lk, kube.catalogs;
    SinceStart(start, job.remote.quiet, CatalogNames(catalogs));
    ProgressStart(start, job.remote.quiet, statuses, catalogs, bucket, unknown, roles, job.own);
    for k := 0 to |catalogs|
      invariant job.Valid() && kube.Valid() && job.RolesKnown(roles.ids, managed)
      invariant old(job.remote.history) <= job.remote.history
      invariant old(job.remote.faults) <= job.remote.faults && old(kube.faults) <= kube.faults
      invariant job.remote.faults == old(job.remote.faults) && kube.faults == old(kube.faults) ==> failures == 0
      invariant Since(start, job.remote.lk, job.remote.quiet, CatalogNames(catalogs))
      invariant CatalogsProgress(job.remote.lk, job.remote.quiet, kube.catalogs, published, failures, catalogs, k,
                                 bucket, unknown, roles, job.own)
      invariant job.remote.quiet && calm ==> job.Untouched()
      invariant job.remote.quiet && failures == 0 && settled ==>
        kube.catalogs == statuses && kube.writes == old(kube.writes)
    {
      ghost var before := job.remote.lk;
      var outcome := SyncNextCatalog(job, kube, catalogs, k, bucket, unknown, roles, managed, published, failures,
                                     calm && job.remote.quiet, settled && job.remote.quiet && failures == 0);
      SinceNext(start, before, job.remote.lk, job.remote.quiet, outcome.ended, catalogs, k);
      published, failures := Append(published, outcome.published), if outcome.failed then failures + 1 else failures;
      if outcome.ended { return true, published, failures; }
    }
  }

  /** Step 4: warehouses first, then their grants, then the statuses. */
  method SyncCatalogs(job: Job, kube: Kube, catalogs: seq<Catalog>, bucket: string, unknown: set<string>, roles: Roles,
                      managed: set<RoleId>)
    returns (ended: bool, published: seq<Published>, failures: nat)
    requires job.Valid() && kube.Valid() && job.RolesKnown(roles.ids, managed) && DistinctCatalogs(catalogs)
    modifies job, job.remote, kube`catalogs, kube`writes, kube`faults
    ensures job.Valid() && kube.Valid() && old(job.remote.history) <= job.remote.history
    ensures Keeps(old(job.remote.lk), job.remote.lk, {}, CatalogNames(catalogs))
    ensures job.remote.quiet && !ended ==> SameRoles(old(job.remote.lk), job.remote.lk)
    ensures !ended ==>
      CatalogsProgress(job.remote.lk, job.remote.quiet, kube.catalogs, published, failures, catalogs, |catalogs|,
                       bucket, unknown, roles, job.own)
    ensures job.remote.quiet && CatalogsCalm(old(job.remote.lk), catalogs, bucket, unknown, roles) ==> job.Untouched()
    ensures (job.remote.quiet && failures == 0 &&
             old(CatalogsSettled(job.remote.lk, kube.catalogs, catalogs, bucket, unknown, roles, job.own))) ==>
      kube.catalogs == old(kube.catalogs) && kube.writes == old(kube.writes)
    ensures old(job.remote.faults) <= job.remote.faults && old(kube.faults) <= kube.faults
    ensures job.remote.faults == old(job.remote.faults) && kube.faults == old(kube.faults) ==> !ended && failures == 0
  {
    ghost var calm := CatalogsCalm(job.remote.lk, catalogs, bucket, unknown, roles);
    ghost var settled := CatalogsSettled(job.remote.lk, kube.catalogs, catalogs, bucket, unknown, roles, job.own);
    if settled { SettledIsCalm(job.remote.lk, kube.catalogs, catalogs, bucket, unknown, roles, job.own); }
    ended, published, failures := SyncEach(job, kube, catalogs, bucket, unknown, roles, managed, calm, settled);
  }
}
