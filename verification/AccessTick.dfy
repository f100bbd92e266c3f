/** One tick of the access sync, and any number of ticks. */
module AccessTick {
  import opened Text
  import opened AccessModel
  import opened AccessTable
  import opened LakekeeperApi
  import opened AccessJob
  import opened AccessRoles
  import opened AccessCatalogs
  import opened AccessFixedPoint
  import opened KubeApi
  import RG = ResourceGroups
  import WS = WarehouseSync

  // ---------- step 6: what is published ----------

  lemma CatalogGroupsDeclared(input: Input, i: nat)
    requires i < |input.catalogs|
    ensures DeclaredGroups(input.catalogs[i].spec) <= Known(input) + Unknown(input)
  {
  }

  /** What step 4 lists for publishing has its grants in Lakekeeper, exactly those when
      nobody else writes. */
  lemma PublishedApplied(lk: Lakekeeper, quiet: bool, input: Input, roles: Roles, published: seq<Published>,
                         own: Option<string>, p: Published)
    requires RolesReady(lk, input, roles) && p in published
    requires quiet ==> QuietDone(lk, Known(input), roles, KnownMembers(input), input.fixed)
    requires PublishedSoFar(lk, quiet, published, input.catalogs, |input.catalogs|, input.bucket, Unknown(input), roles,
                            own)
    ensures GrantsApplied(lk, p.name, p.spec, roles.ids, KnownMembers(input), input.fixed)
    ensures quiet ==>
      GrantsExact(lk, p.name, p.spec, roles.ids, KnownMembers(input), input.fixed) &&
      p.foreign == |ForeignGrants(lk, p.name, own)|
  {
    assert MayPublish(lk, quiet, p, input.bucket, Unknown(input), roles, own);
    var i :| 0 <= i < |input.catalogs| && IsPublished(p, input.catalogs[i]);
    CatalogGroupsDeclared(input, i);
    ReadyGroupsSynced(lk, quiet, input.catalogs[i], Unknown(input), Known(input), roles, KnownMembers(input),
                      input.fixed);
  }

  /** One of the Catalogs may be published under this name. */
  ghost predicate PublishableName(input: Input, problems: Problems, c: string) {
    exists i :: 0 <= i < |input.catalogs| && input.catalogs[i].name == c
      && Publishable(input.catalogs[i], input.bucket, Unknown(input), problems)
  }

  /** The document names exactly the Catalogs that may be published. */
  ghost predicate Covers(t: Table, input: Input, problems: Problems) {
    forall c :: c in t <==> PublishableName(input, problems, c)
  }

  /** In a fixed point the document names exactly the Catalogs that break no rule and whose
      groups the realm has, each with a role of ours. */
  ghost predicate Complete(t: Table, lk: Lakekeeper, input: Input) {
    forall n :: n in t <==>
      exists c :: c in input.catalogs && c.name == n && MayStand(c, input.bucket) && AllUsable(lk, input, c.spec)
  }

  lemma CoversComplete(t: Table, lk: Lakekeeper, input: Input, roles: Roles)
    requires UniqueRoleNames(lk) && RolesFixed(lk, input, roles) && Covers(t, input, roles.problems)
    ensures Complete(t, lk, input)
  {
    forall c | c in input.catalogs
      ensures Publishable(c, input.bucket, Unknown(input), roles.problems) <==>
              MayStand(c, input.bucket) && AllUsable(lk, input, c.spec)
    {
      ClearIsUsable(lk, input, roles, c);
    }
    forall n ensures PublishableName(input, roles.problems, n) <==>
      exists c :: c in input.catalogs && c.name == n && MayStand(c, input.bucket) && AllUsable(lk, input, c.spec)
    {
    }
  }

  // ---------- whom the document lists ----------

  /** The entry of a Catalog lists the admin group under `all` and the owner's group under
      `manage`, and has a list for each of the four verbs. */
  ghost predicate Staffed(e: Entry, input: Input, owner: string) {
    && e.lists.Keys == {Browse, SelectVerb, Write, CreateVerb}
    && (forall u :: u in e.all <==> InGroup(input, input.admin, u))
    && (forall u :: u in e.manage <==> owner != "" && InGroup(input, owner, u))
  }

  ghost predicate AllStaffed(t: Table, input: Input) {
    forall n :: n in t ==> exists c :: c in input.catalogs && c.name == n && Staffed(t[n], input, c.spec.owner)
  }

  lemma EntryStaffed(input: Input, p: Published)
    requires AmongFirst(p, input.catalogs, |input.catalogs|)
    ensures Staffed(EntryOf(p, input.admin, KnownMembers(input), input.fixed), input, p.spec.owner)
  {
    var owner := p.spec.owner;
    var i :| 0 <= i < |input.catalogs| && IsPublished(p, input.catalogs[i]);
    assert owner != "" ==> NamesGroup(input.catalogs[i].spec, owner) && Concerned(input, owner);
    forall u ensures u in GroupUsers(input.admin, KnownMembers(input), input.fixed) <==> InGroup(input, input.admin, u)
    {
      UsersExactly(input, input.admin, u);
    }
    if owner != "" {
      forall u ensures u in GroupUsers(owner, KnownMembers(input), input.fixed) <==> InGroup(input, owner, u) {
        UsersExactly(input, owner, u);
      }
    }
  }

  lemma DocumentStaffed(t: Table, input: Input, published: seq<Published>)
    requires IsDocument(t, published, input.admin, KnownMembers(input), input.fixed)
    requires forall p :: p in published ==> AmongFirst(p, input.catalogs, |input.catalogs|)
    ensures AllStaffed(t, input)
  {
    forall n | n in t
      ensures exists c :: c in input.catalogs && c.name == n && Staffed(t[n], input, c.spec.owner)
    {
      var k :| 0 <= k < |published| && published[k].name == n;
      assert published[k] in published;
      EntryStaffed(input, published[k]);
      var i :| 0 <= i < |input.catalogs| && IsPublished(published[k], input.catalogs[i]);
      assert input.catalogs[i] in input.catalogs;
    }
  }

  lemma PublishedName(input: Input, p: Published, problems: Problems)
    requires AmongFirst(p, input.catalogs, |input.catalogs|)
    requires Publishable(Catalog(p.name, p.spec), input.bucket, Unknown(input), problems)
    ensures PublishableName(input, problems, p.name)
  {
    var i :| 0 <= i < |input.catalogs| && IsPublished(p, input.catalogs[i]);
    assert input.catalogs[i] == Catalog(p.name, p.spec);
  }

  lemma NamePublished(input: Input, published: seq<Published>, problems: Problems, c: string) returns (k: nat)
    requires AllPublished(published, input.catalogs, |input.catalogs|, input.bucket, Unknown(input), problems)
    requires PublishableName(input, problems, c)
    ensures k < |published| && published[k].name == c
  {
    var i :| 0 <= i < |input.catalogs| && input.catalogs[i].name == c
             && Publishable(input.catalogs[i], input.bucket, Unknown(input), problems);
    assert Covered(published, input.catalogs[i]);
    var p :| p in published && IsPublished(p, input.catalogs[i]);
    k :| 0 <= k < |published| && published[k] == p;
  }

  lemma DocumentCovers(t: Table, input: Input, published: seq<Published>, problems: Problems)
    requires IsDocument(t, published, input.admin, KnownMembers(input), input.fixed)
    requires AllPublished(published, input.catalogs, |input.catalogs|, input.bucket, Unknown(input), problems)
    requires forall p :: p in published ==> AmongFirst(p, input.catalogs, |input.catalogs|)
    requires forall p :: p in published ==> Publishable(Catalog(p.name, p.spec), input.bucket, Unknown(input), problems)
    ensures Covers(t, input, problems)
  {
    forall c ensures c in t <==> PublishableName(input, problems, c) {
      if c in t {
        var k :| 0 <= k < |published| && published[k].name == c;
        assert published[k] in published;
        PublishedName(input, published[k], problems);
      }
      if PublishableName(input, problems, c) {
        var k := NamePublished(input, published, problems, c);
      }
    }
  }

  lemma PublishedMayBe(lk: Lakekeeper, quiet: bool, input: Input, roles: Roles, published: seq<Published>,
                       own: Option<string>)
    requires PublishedSoFar(lk, quiet, published, input.catalogs, |input.catalogs|, input.bucket, Unknown(input), roles,
                            own)
    ensures forall p :: p in published ==> AmongFirst(p, input.catalogs, |input.catalogs|)
    ensures forall p :: p in published ==>
      Publishable(Catalog(p.name, p.spec), input.bucket, Unknown(input), roles.problems)
  {
    forall p | p in published
      ensures Publishable(Catalog(p.name, p.spec), input.bucket, Unknown(input), roles.problems)
    {
      assert MayPublish(lk, quiet, p, input.bucket, Unknown(input), roles, own);
    }
  }

  /** What step 4 leaves for publishing. */
  ghost predicate Publishables(lk: Lakekeeper, quiet: bool, input: Input, own: Option<string>, roles: Roles,
                               published: seq<Published>, failures: nat) {
    && RolesReady(lk, input, roles)
    && (quiet ==> QuietDone(lk, Known(input), roles, KnownMembers(input), input.fixed))
    && PublishedSoFar(lk, quiet, published, input.catalogs, |input.catalogs|, input.bucket, Unknown(input), roles, own)
    && (failures == 0 ==>
          AllPublished(published, input.catalogs, |input.catalogs|, input.bucket, Unknown(input), roles.problems))
  }

  /** What the document says about the services as step 4 left them; `failures` are those of
      step 4. */
  ghost predicate DocumentHolds(lk: Lakekeeper, quiet: bool, input: Input, own: Option<string>, roles: Roles,
                                failures: nat, document: Table) {
    && TableBacked(World(lk, Some(document))) && ManagersBacked(World(lk, Some(document)))
    && (input.admin !in roles.problems ==> AllBacked(World(lk, Some(document))))
    && (quiet ==> TableExact(World(lk, Some(document)), own))
    && AllStaffed(document, input)
    && (failures == 0 ==> Covers(document, input, roles.problems))
  }

  /** The document of this tick, with what Lakekeeper says about it. */
  method BuildDocument(ghost lk: Lakekeeper, ghost quiet: bool, input: Input, roles: Roles, published: seq<Published>,
                       ghost own: Option<string>, ghost failures: nat) returns (document: Table)
    requires Publishables(lk, quiet, input, own, roles, published, failures)
    ensures IsDocument(document, published, input.admin, KnownMembers(input), input.fixed)
    ensures DocumentHolds(lk, quiet, input, own, roles, failures, document)
  {
    var members := KnownMembers(input);
    document := AccessDocument(published, input.admin, members, input.fixed);
    forall p | p in published
      ensures GrantsApplied(lk, p.name, p.spec, roles.ids, members, input.fixed)
      ensures quiet ==>
        GrantsExact(lk, p.name, p.spec, roles.ids, members, input.fixed) &&
        p.foreign == |ForeignGrants(lk, p.name, own)|
    {
      PublishedApplied(lk, quiet, input, roles, published, own, p);
    }
    DocumentBacked(lk, document, published, roles.ids, input.admin, members, input.fixed);
    if quiet { DocumentExact(lk, document, published, roles.ids, input.admin, members, input.fixed, own); }
    if input.admin !in roles.problems {
      assert GroupSynced(lk, roles.ids, input.admin, members, input.fixed);
      DocumentAdmins(lk, document, published, roles.ids, input.admin, members, input.fixed);
    }
    PublishedMayBe(lk, quiet, input, roles, published, own);
    DocumentStaffed(document, input, published);
    if failures == 0 {
      DocumentCovers(document, input, published, roles.problems);
    }
  }

  // ---------- the tick ----------

  /** Steps 1 and 2. `before`: the roles an earlier tick found. */
  method SyncKnown(job: Job, input: Input, ghost before: Roles) returns (ended: bool, roles: Roles)
    requires job.Valid()
    modifies job, job.remote
    ensures job.Valid() && old(job.remote.history) <= job.remote.history
    ensures !ended ==> RolesDone(job.remote.lk, Known(input), roles, KnownMembers(input), input.fixed)
    ensures !ended && job.remote.quiet ==>
      QuietDone(job.remote.lk, Known(input), roles, KnownMembers(input), input.fixed)
    ensures job.remote.quiet && RolesFixed(old(job.remote.lk), input, before) ==>
      job.Untouched() && (!ended && input.admin in roles.ids ==> AdminGranted(job.remote.lk, input, roles.ids))
    ensures old(job.remote.faults) <= job.remote.faults
    ensures job.remote.quiet && job.remote.faults == old(job.remote.faults) ==> !ended && roles.failures == 0
    ensures job.remote.quiet && !ended ==> NoNewForeign(old(job.remote.lk), job.remote.lk)
  {
    ghost var start := job.remote.lk;
    if job.remote.quiet && RolesFixed(start, input, before) {
      QuietSettled(start, Known(input), before.ids, before.problems, KnownMembers(input), input.fixed);
    }
    ended, roles := SyncRoles(job, Known(input), KnownMembers(input), input.fixed);
    if !ended && job.remote.quiet && RolesFixed(start, input, before) {
      RolesAgree(start, input, before, roles, input.admin);
    }
  }

  /** Step 3: the admin role holds `project_admin`; then the ids of the managed roles. */
  method AdmitAdmin(job: Job, input: Input, roles: Roles) returns (ended: bool, managed: set<RoleId>)
    requires job.Valid() && input.admin in roles.ids
    requires RolesDone(job.remote.lk, Known(input), roles, KnownMembers(input), input.fixed)
    modifies job.remote
    ensures job.Valid() && old(job.remote.history) <= job.remote.history
    ensures !ended ==> RolesReady(job.remote.lk, input, roles) && job.RolesKnown(roles.ids, managed)
    ensures job.remote.quiet && !ended ==> job.remote.lk.roles == old(job.remote.lk).roles
    ensures job.remote.quiet && AdminGranted(old(job.remote.lk), input, roles.ids) ==> job.Untouched()
    ensures old(job.remote.faults) <= job.remote.faults
    ensures job.remote.faults == old(job.remote.faults) ==> !ended
  {
    ghost var start := job.remote.lk;
    managed := {};
    var granted := job.EnsureAdminGrant(roles.ids[input.admin]);
    if !granted { return true, managed; }
    ghost var admitted := job.remote.lk;
    var answer;
    answer, managed := job.ManagedRoleIds();
    ended := !answer.Accepted?;
    GrowsReady(start, admitted, job.remote.lk, input, roles);
  }

  /** The realm has the admin group, and no role of somebody else bears its name. */
  ghost predicate AdminOurs(lk: Lakekeeper, input: Input) {
    input.admin in input.realm && !Conflicting(lk, input.admin)
  }

  lemma AdminFound(a: Lakekeeper, b: Lakekeeper, input: Input, roles: Roles)
    requires NoNewForeign(a, b) && AdminOurs(a, input) && roles.failures == 0
    requires QuietDone(b, Known(input), roles, KnownMembers(input), input.fixed)
    ensures input.admin in roles.ids
  {
    if input.admin in roles.problems { ConflictBefore(a, b, input.admin); }
  }

  /** Steps 1 to 3. A tick without a role for the admin group ends. */
  method PrepareRoles(job: Job, input: Input, ghost before: Roles)
    returns (ended: bool, roles: Roles, managed: set<RoleId>)
    requires job.Valid()
    modifies job, job.remote
    ensures job.Valid() && old(job.remote.history) <= job.remote.history
    ensures !ended ==> RolesReady(job.remote.lk, input, roles) && job.RolesKnown(roles.ids, managed)
    ensures !ended && job.remote.quiet ==>
      QuietDone(job.remote.lk, Known(input), roles, KnownMembers(input), input.fixed)
    ensures job.remote.quiet && RolesFixed(old(job.remote.lk), input, before) ==> job.Untouched()
    ensures old(job.remote.faults) <= job.remote.faults
    ensures job.remote.quiet && job.remote.faults == old(job.remote.faults) && AdminOurs(old(job.remote.lk), input) ==>
      !ended && roles.failures == 0
  {
    managed := {};
    ghost var start := job.remote.lk;
    ended, roles := SyncKnown(job, input, before);
    if job.remote.quiet && !ended && roles.failures == 0 && AdminOurs(start, input) {
      AdminFound(start, job.remote.lk, input, roles);
    }
    if ended || input.admin !in roles.ids { return true, roles, managed; }
    ended, managed := AdmitAdmin(job, input, roles);
  }

  lemma GrowsReady(a: Lakekeeper, b: Lakekeeper, c: Lakekeeper, input: Input, roles: Roles)
    requires RolesDone(a, Known(input), roles, KnownMembers(input), input.fixed) && input.admin in roles.ids
    requires Grows(a, b) && Grows(b, c) && Assignment(ProjectAdmin, RoleRef(roles.ids[input.admin])) in b.project
    ensures RolesReady(c, input, roles)
  {
    KeepsReady(a, b, {}, input, roles);
    assert ManagedSubject(b, RoleRef(roles.ids[input.admin]));
    KeepsReady(b, c, {}, input, roles);
  }

  lemma KeepsReady(a: Lakekeeper, b: Lakekeeper, names: set<string>, input: Input, roles: Roles)
    requires Keeps(a, b, {}, names) && RolesDone(a, Known(input), roles, KnownMembers(input), input.fixed)
    ensures RolesDone(b, Known(input), roles, KnownMembers(input), input.fixed)
    ensures RolesReady(a, input, roles) ==> RolesReady(b, input, roles)
  {
    KeepsNamed(a, b, {}, names, roles.ids);
    forall g | g in Known(input) && g !in roles.problems ensures g in roles.ids {
      assert GroupSynced(a, roles.ids, g, KnownMembers(input), input.fixed);
    }
    KeepsHandled(a, b, {}, names, Known(input), roles.ids, roles.problems, KnownMembers(input), input.fixed);
  }

  /** `ended`: the tick stopped early. `published`: OPA took the table. */
  datatype Exit = Exit(ended: bool, failures: nat, published: bool)

  predicate Clean(exit: Exit) {
    !exit.ended && exit.failures == 0
  }

  /** `plan` is what the warehouses of this tick come to. */
  ghost predicate IsPlan(plan: WS.Plan, input: Input) {
    forall ws, members, unknown, admin |
      RG.DistinctNames(ws) && ws == input.warehouses && members == KnownMembers(input) && unknown == Unknown(input)
      && admin == input.admin ::
      plan == WS.PlanFor(ws, members, unknown, admin)
  }

  /** The PUT, and the last listing. */
  method PutAndList(job: Job, document: Table, ghost adminSynced: bool) returns (ended: bool, taken: bool)
    requires job.Valid()
    requires TableBacked(World(job.remote.lk, Some(document))) && ManagersBacked(World(job.remote.lk, Some(document)))
    requires adminSynced ==> AllBacked(World(job.remote.lk, Some(document)))
    modifies job.remote
    ensures job.remote.Valid() && old(job.remote.history) <= job.remote.history
    ensures job.remote.calls == old(job.remote.calls) + [PutTable(taken, adminSynced)]
    ensures taken ==> !job.remote.dropLost
    ensures job.remote.quiet ==> job.remote.lk == old(job.remote.lk)
    ensures job.remote.quiet && taken ==> job.remote.table == Some(document)
    ensures old(job.remote.faults) <= job.remote.faults
    ensures job.remote.faults == old(job.remote.faults) ==> !ended && taken
  {
    var answer := job.remote.PutDocument(document, adminSynced);
    taken := answer.Accepted?;
    var names;
    answer, names := job.remote.WarehouseNames();
    ended := !answer.Accepted?;
  }

  /** What steps 1 to 4 leave: the failures so far, and the document to publish. */
  datatype Drafted = Drafted(ended: bool, roles: Roles, failures: nat, document: Table)

  ghost predicate DraftHolds(lk: Lakekeeper, quiet: bool, input: Input, own: Option<string>, d: Drafted) {
    DocumentHolds(lk, quiet, input, own, d.roles, d.failures, d.document)
  }

  lemma PublishablesAfter(a: Lakekeeper, b: Lakekeeper, quiet: bool, statuses: Statuses, input: Input,
                          own: Option<string>, roles: Roles, published: seq<Published>, failures: nat)
    requires RolesReady(b, input, roles)
    requires quiet ==> SameRoles(a, b) && QuietDone(a, Known(input), roles, KnownMembers(input), input.fixed)
    requires CatalogsProgress(b, quiet, statuses, published, failures, input.catalogs, |input.catalogs|, input.bucket,
                              Unknown(input), roles, own)
    ensures Publishables(b, quiet, input, own, roles, published, failures)
    ensures quiet && roles.failures == 0 && failures == 0 ==> LakeSettled(b, statuses, input, own, roles)
  {
    if quiet {
      forall g | Conflicting(a, g) ensures Conflicting(b, g) {
        var r :| IsRole(a, g, r) && !a.roles[r].managed;
        assert IsRole(b, g, r);
      }
    }
  }

  /** Step 4, for roles that are ready. */
  method ConvergeCatalogs(job: Job, kube: Kube, input: Input, roles: Roles, managed: set<RoleId>, ghost before: Roles)
    returns (ended: bool, published: seq<Published>, failures: nat)
    requires job.Valid() && kube.Valid() && WellFormedInput(input)
    requires RolesReady(job.remote.lk, input, roles) && job.RolesKnown(roles.ids, managed)
    requires job.remote.quiet ==> QuietDone(job.remote.lk, Known(input), roles, KnownMembers(input), input.fixed)
    modifies job, job.remote, kube`catalogs, kube`writes, kube`faults
    ensures job.Valid() && kube.Valid() && old(job.remote.history) <= job.remote.history
    ensures !ended ==> Publishables(job.remote.lk, job.remote.quiet, input, job.own, roles, published, failures)
    ensures job.remote.quiet && !ended && roles.failures == 0 && failures == 0 ==>
      LakeSettled(job.remote.lk, kube.catalogs, input, job.own, roles)
    ensures (job.remote.quiet && LakeSettled(old(job.remote.lk), old(kube.catalogs), input, job.own, before)) ==>
      && job.Untouched()
      && (roles.failures == 0 && failures == 0 ==>
        kube.catalogs == old(kube.catalogs) && kube.writes == old(kube.writes))
    ensures old(job.remote.faults) <= job.remote.faults && old(kube.faults) <= kube.faults
    ensures job.remote.faults == old(job.remote.faults) && kube.faults == old(kube.faults) ==> !ended && failures == 0
  {
    ghost var start := job.remote.lk;
    if job.remote.quiet && LakeSettled(start, kube.catalogs, input, job.own, before) {
      SettledForAll(start, kube.catalogs, input, job.own, before, roles);
    }
    ended, published, failures :=
      SyncCatalogs(job, kube, input.catalogs, input.bucket, Unknown(input), roles, managed);
    KeepsReady(start, job.remote.lk, CatalogNames(input.catalogs), input, roles);
    if !ended {
      PublishablesAfter(start, job.remote.lk, job.remote.quiet, kube.catalogs, input, job.own, roles, published,
                        failures);
    }
  }

  lemma FewerFailures(lk: Lakekeeper, quiet: bool, input: Input, own: Option<string>, roles: Roles, failures: nat,
                      all: nat, document: Table)
    requires failures <= all && DocumentHolds(lk, quiet, input, own, roles, failures, document)
    ensures DocumentHolds(lk, quiet, input, own, roles, all, document)
  {
  }

  /** Step 4 and the drafting of the document, which is a function of what it leaves. */
  method DraftTable(job: Job, kube: Kube, input: Input, roles: Roles, managed: set<RoleId>, ghost before: Roles)
    returns (d: Drafted)
    requires job.Valid() && kube.Valid() && WellFormedInput(input)
    requires RolesReady(job.remote.lk, input, roles) && job.RolesKnown(roles.ids, managed)
    requires job.remote.quiet ==> QuietDone(job.remote.lk, Known(input), roles, KnownMembers(input), input.fixed)
    modifies job, job.remote, kube`catalogs, kube`writes, kube`faults
    ensures job.Valid() && kube.Valid() && old(job.remote.history) <= job.remote.history
    ensures d.roles == roles
    ensures !d.ended ==> DraftHolds(job.remote.lk, job.remote.quiet, input, job.own, d)
    ensures job.remote.quiet && !d.ended && d.failures == 0 ==>
      LakeSettled(job.remote.lk, kube.catalogs, input, job.own, roles)
    ensures (job.remote.quiet && LakeSettled(old(job.remote.lk), old(kube.catalogs), input, job.own, before)) ==>
      job.Untouched() && (d.failures == 0 ==> kube.catalogs == old(kube.catalogs) && kube.writes == old(kube.writes))
    ensures old(job.remote.faults) <= job.remote.faults && old(kube.faults) <= kube.faults
    ensures job.remote.faults == old(job.remote.faults) && kube.faults == old(kube.faults) ==>
      !d.ended && d.failures == roles.failures
  {
    var ended, published, failures := ConvergeCatalogs(job, kube, input, roles, managed, before);
    d := Drafted(ended, roles, roles.failures + failures, map[]);
    if ended { return; }
    var document := BuildDocument(job.remote.lk, job.remote.quiet, input, roles, published, job.own, failures);
    FewerFailures(job.remote.lk, job.remote.quiet, input, job.own, roles, failures, d.failures, document);
    d := d.(document := document);
  }

  /** Whether the reads before the first write went through: the Secret, the two listings,
      `STATIC_ASSIGNEES` and the realm. */
  method Readable(remote: Remote) returns (ok: bool)
    modifies remote`faults
    ensures remote.faults == old(remote.faults) + if ok then 0 else 1
  {
    ok := *;
    remote.Tally(ok);
  }

  /** Steps 1 to 4. `before`: the roles an earlier tick found. */
  method Draft(job: Job, kube: Kube, input: Input, ghost before: Roles) returns (d: Drafted)
    requires job.Connected() && kube.Valid() && WellFormedInput(input)
    modifies job, job.remote, kube`catalogs, kube`writes, kube`faults
    ensures job.Valid() && kube.Valid() && old(job.remote.history) <= job.remote.history
    ensures !d.ended ==> DraftHolds(job.remote.lk, job.remote.quiet, input, job.own, d)
    ensures job.remote.quiet && !d.ended && d.failures == 0 ==>
      LakeSettled(job.remote.lk, kube.catalogs, input, job.own, d.roles)
    ensures (job.remote.quiet && LakeSettled(old(job.remote.lk), old(kube.catalogs), input, job.own, before)) ==>
      && job.AskedNothing()
      && (d.failures == 0 ==> kube.catalogs == old(kube.catalogs) && kube.writes == old(kube.writes))
    ensures old(job.remote.faults) <= job.remote.faults && old(kube.faults) <= kube.faults
    ensures (job.remote.quiet && job.remote.faults == old(job.remote.faults) && kube.faults == old(kube.faults) &&
             AdminOurs(old(job.remote.lk), input)) ==>
      !d.ended && d.failures == 0
  {
    job.Start();
    d := Drafted(true, Roles(map[], map[], 0), 0, map[]);
    var ok := Readable(job.remote);
    if !ok { return; }
    var ended, roles, managed := PrepareRoles(job, input, before);
    if ended { return Drafted(true, roles, roles.failures, map[]); }
    d := DraftTable(job, kube, input, roles, managed, before);
  }

  /** Step 5. */
  method ConvergeClasses(kube: Kube, input: Input, ghost plan: WS.Plan) returns (ok: bool)
    requires kube.Valid() && WellFormedInput(input) && IsPlan(plan, input)
    modifies kube`sqlWarehouses, kube`configMaps, kube`writes, kube`faults
    ensures kube.Valid()
    ensures ok ==> WS.Settled(kube.sqlWarehouses, kube.configMaps, plan)
    ensures WS.Settled(old(kube.sqlWarehouses), old(kube.configMaps), plan) ==>
      kube.sqlWarehouses == old(kube.sqlWarehouses) && kube.configMaps == old(kube.configMaps) &&
      kube.writes == old(kube.writes)
    ensures old(kube.faults) <= kube.faults && (kube.faults == old(kube.faults) ==> ok)
  {
    ghost var rendered;
    ok, rendered := WS.ConvergeWarehouses(kube, input.warehouses, KnownMembers(input), Unknown(input), input.admin);
  }

  /** Step 6: the PUT, and the last listing. */
  method PutDraft(job: Job, ghost input: Input, d: Drafted, adminSynced: bool) returns (ended: bool, taken: bool)
    requires job.Valid() && DraftHolds(job.remote.lk, job.remote.quiet, input, job.own, d)
    requires adminSynced == (input.admin !in d.roles.problems)
    modifies job.remote
    ensures job.Connected() && old(job.remote.history) <= job.remote.history
    ensures job.remote.calls == old(job.remote.calls) + [PutTable(taken, adminSynced)]
    ensures taken ==> !job.remote.dropLost
    ensures job.remote.quiet ==> job.remote.lk == old(job.remote.lk)
    ensures job.remote.quiet && taken ==> TableExact(job.remote.Now(), job.own)
    ensures job.remote.quiet && taken ==> job.remote.table.Some? && AllStaffed(job.remote.table.value, input)
    ensures job.remote.quiet && taken && d.failures == 0 ==> Covers(job.remote.table.value, input, d.roles.problems)
    ensures old(job.remote.faults) <= job.remote.faults
    ensures job.remote.faults == old(job.remote.faults) ==> !ended && taken
  {
    ended, taken := PutAndList(job, d.document, adminSynced);
  }

  /** The table OPA took: believed again after any failed DELETE and, with nobody else
      writing, exact, and complete when nothing failed. */
  ghost predicate TablePut(job: Job, input: Input, failures: nat, roles: Roles)
    reads job, job.remote
  {
    && !job.remote.dropLost
    && (job.remote.quiet ==>
          TableExact(job.remote.Now(), job.own) && AllStaffed(job.remote.table.value, input) &&
          (failures == 0 ==> Covers(job.remote.table.value, input, roles.problems)))
  }

  /** Steps 5 and 6, unless the tick ended before. */
  method Finish(job: Job, kube: Kube, input: Input, d: Drafted, ghost plan: WS.Plan) returns (exit: Exit)
    requires job.Valid() && kube.Valid() && WellFormedInput(input) && IsPlan(plan, input)
    requires d.ended || DraftHolds(job.remote.lk, job.remote.quiet, input, job.own, d)
    modifies job.remote, kube`sqlWarehouses, kube`configMaps, kube`writes, kube`faults
    ensures job.Connected() && kube.Valid() && old(job.remote.history) <= job.remote.history
    ensures exit.failures == d.failures
    ensures job.remote.quiet ==> job.remote.lk == old(job.remote.lk)
    ensures job.remote.calls == old(job.remote.calls) || PutOnly(old(job.remote.calls), job.remote.calls)
    ensures !exit.ended || exit.published ==>
      job.remote.calls == old(job.remote.calls) + [PutTable(exit.published, input.admin !in d.roles.problems)]
    ensures !exit.ended ==> WS.Settled(kube.sqlWarehouses, kube.configMaps, plan)
    ensures WS.Settled(old(kube.sqlWarehouses), old(kube.configMaps), plan) ==>
      kube.sqlWarehouses == old(kube.sqlWarehouses) && kube.configMaps == old(kube.configMaps) &&
      kube.writes == old(kube.writes)
    ensures exit.published ==> TablePut(job, input, exit.failures, d.roles)
    ensures old(job.remote.faults) <= job.remote.faults && old(kube.faults) <= kube.faults
    ensures job.remote.faults == old(job.remote.faults) && kube.faults == old(kube.faults) ==>
      exit.ended == d.ended && (exit.published || d.ended)
    ensures d.ended ==> exit.ended && !exit.published
  {
    if d.ended { return Exit(true, d.failures, false); }
    var ok := ConvergeClasses(kube, input, plan);
    if !ok { return Exit(true, d.failures, false); }
    var ended, taken := PutDraft(job, input, d, input.admin !in d.roles.problems);
    exit := Exit(ended, d.failures, taken);
  }

  predicate LastCall(calls: seq<Call>, call: Call) {
    calls != [] && calls[|calls| - 1] == call
  }

  /** All steps of a tick, with what they leave settled. */
  method TakeSteps(job: Job, kube: Kube, input: Input, ghost before: Roles, ghost plan: WS.Plan)
    returns (exit: Exit, ghost roles: Roles)
    requires job.Connected() && kube.Valid() && WellFormedInput(input) && IsPlan(plan, input)
    modifies job, job.remote, kube
    ensures job.Connected() && kube.Valid() && old(job.remote.history) <= job.remote.history
    ensures exit.published ==> TablePut(job, input, exit.failures, roles)
    ensures job.remote.quiet && Clean(exit) ==> WS.Settled(kube.sqlWarehouses, kube.configMaps, plan)
    ensures job.remote.quiet && (!exit.ended || exit.published) && exit.failures == 0 ==>
      LakeSettled(job.remote.lk, kube.catalogs, input, job.own, roles)
    ensures (job.remote.quiet && LakeSettled(old(job.remote.lk), old(kube.catalogs), input, job.own, before)) ==>
      && job.AskedOnlyToPut()
      && (exit.failures == 0 && WS.Settled(old(kube.sqlWarehouses), old(kube.configMaps), plan) ==> kube.Unwritten())
    ensures old(job.remote.faults) <= job.remote.faults && old(kube.faults) <= kube.faults
    ensures !exit.ended || exit.published ==>
      LastCall(job.remote.calls, PutTable(exit.published, input.admin !in roles.problems))
    ensures (job.remote.quiet && job.remote.faults == old(job.remote.faults) && kube.faults == old(kube.faults) &&
             AdminOurs(old(job.remote.lk), input)) ==>
      Clean(exit) && exit.published
  {
    var d := Draft(job, kube, input, before);
    roles := d.roles;
    label drafted:
    exit := Finish(job, kube, input, d, plan);
    assert job.remote.quiet ==> job.remote.lk == old@drafted(job.remote.lk);
    assert kube.catalogs == old@drafted(kube.catalogs);
  }

  /** The classes are as declared: their statuses, and where Trino sends everybody. */
  ghost predicate ClassesDeclared(live: Statuses, files: ConfigMaps, input: Input) {
    WS.Declared(live, files, input.warehouses, KnownMembers(input), Unknown(input), input.admin)
  }

  lemma ClassesAsDeclared(live: Statuses, files: ConfigMaps, input: Input, plan: WS.Plan)
    requires WellFormedInput(input) && IsPlan(plan, input) && WS.Settled(live, files, plan)
    ensures ClassesDeclared(live, files, input)
  {
    WS.SettledIsDeclared(live, files, input.warehouses, KnownMembers(input), Unknown(input), input.admin);
  }

  /** `main`: one tick. Whatever fails, every state it goes through is part of a run. A
      clean tick with nobody else writing leaves nothing to write, and what is there is what
      the input declares; the table it publishes then names each Catalog it should. A tick
      that finds nothing to write asks for nothing but the PUT of the table, and a tick
      without a failed call is clean. `before`: the roles an earlier tick found; `plan`: what
      its warehouses come to. */
  method Tick(job: Job, kube: Kube, input: Input, ghost before: Roles, ghost plan: WS.Plan)
    returns (exit: Exit, ghost roles: Roles)
    requires job.Connected() && kube.Valid() && WellFormedInput(input) && IsPlan(plan, input)
    modifies job, job.remote, kube
    ensures job.Connected() && kube.Valid() && old(job.remote.history) <= job.remote.history
    ensures exit.published ==> TablePut(job, input, exit.failures, roles)
    ensures job.remote.quiet && exit.published && exit.failures == 0 ==>
      job.remote.table.Some? && Complete(job.remote.table.value, job.remote.lk, input)
    ensures job.remote.quiet && Clean(exit) ==>
      LakeSettled(job.remote.lk, kube.catalogs, input, job.own, roles) &&
      AsDeclared(job.remote.lk, kube.catalogs, input, job.own) &&
      WS.Settled(kube.sqlWarehouses, kube.configMaps, plan) &&
      ClassesDeclared(kube.sqlWarehouses, kube.configMaps, input)
    ensures (job.remote.quiet && LakeSettled(old(job.remote.lk), old(kube.catalogs), input, job.own, before)) ==>
      && job.AskedOnlyToPut()
      && (exit.failures == 0 && WS.Settled(old(kube.sqlWarehouses), old(kube.configMaps), plan) ==> kube.Unwritten())
    ensures old(job.remote.faults) <= job.remote.faults && old(kube.faults) <= kube.faults
    ensures !exit.ended || exit.published ==>
      LastCall(job.remote.calls, PutTable(exit.published, input.admin !in roles.problems))
    ensures (job.remote.quiet && job.remote.faults == old(job.remote.faults) && kube.faults == old(kube.faults) &&
             AdminOurs(old(job.remote.lk), input)) ==>
      Clean(exit) && exit.published
  {
    exit, roles := TakeSteps(job, kube, input, before, plan);
    if job.remote.quiet && (!exit.ended || exit.published) && exit.failures == 0 {
      SettledIsDeclared(job.remote.lk, kube.catalogs, input, job.own, roles);
      if exit.published { CoversComplete(job.remote.table.value, job.remote.lk, input, roles); }
      if !exit.ended { ClassesAsDeclared(kube.sqlWarehouses, kube.configMaps, input, plan); }
    }
  }

  // ---------- ticks after ticks ----------

  lemma PlanExists(input: Input) returns (plan: WS.Plan)
    requires WellFormedInput(input)
    ensures IsPlan(plan, input)
  {
    plan := WS.PlanFor(input.warehouses, KnownMembers(input), Unknown(input), input.admin);
  }

  /** Any number of ticks, each on its own input and failing anywhere: every state along
      the way is sound, unless its table is one OPA refused to drop; so when no DELETE that
      was asked for failed every state is, and the `all` lists are right in every state when
      moreover no table was put after a sync of the admin role with a problem. */
  method RunTicks(job: Job, kube: Kube, inputs: seq<Input>)
    requires job.Connected() && kube.Valid() && forall input :: input in inputs ==> WellFormedInput(input)
    modifies job, job.remote, kube
    ensures job.Connected() && kube.Valid() && old(job.remote.history) <= job.remote.history
    ensures forall m :: m in job.remote.history && !m.dropLost ==> TableSound(m.world) && ManagersBacked(m.world)
    ensures forall m :: m in job.remote.history && !m.dropLost && !m.adminLost ==> AllBacked(m.world)
    ensures DropsDone(job.remote.calls) ==>
      forall m :: m in job.remote.history ==> TableSound(m.world) && ManagersBacked(m.world)
    ensures DropsDone(job.remote.calls) && AdminsSynced(job.remote.calls) ==>
      forall m :: m in job.remote.history ==> AllBacked(m.world)
  {
    ghost var roles := Roles(map[], map[], 0);
    for k := 0 to |inputs|
      invariant job.Connected() && kube.Valid() && old(job.remote.history) <= job.remote.history
    {
      assert inputs[k] in inputs;
      ghost var plan := PlanExists(inputs[k]);
      var exit;
      exit, roles := Tick(job, kube, inputs[k], roles, plan);
    }
    RunIsSound(job.remote.history, job.remote.client);
    forall m | m in job.remote.history
      ensures DropsDone(job.remote.calls) ==> !m.dropLost
      ensures AdminsSynced(job.remote.calls) ==> !m.adminLost
    {
      NoneLost(job.remote.history, m);
    }
  }

  lemma RunIsSound(h: seq<Moment>, client: string)
    requires Run(h, client)
    ensures forall m :: m in h && !m.dropLost ==> TableSound(m.world) && ManagersBacked(m.world)
    ensures forall m :: m in h && !m.dropLost && !m.adminLost ==> AllBacked(m.world)
  {
    forall m | m in h && !m.dropLost ensures TableSound(m.world) && ManagersBacked(m.world) {
      BackedIsSound(m.world);
    }
  }

  /** The services and the API server at one moment. */
  datatype Snapshot = Snapshot(lk: Lakekeeper, catalogs: Statuses, sqlWarehouses: Statuses, configMaps: ConfigMaps,
                               calls: seq<Call>, writes: nat)

  /** A second tick on the same input after a clean one: `between` is the state the first
      left. It asks Lakekeeper for nothing, keeps the table until its PUT, and writes
      nothing else unless a call fails. */
  method TickTwice(job: Job, kube: Kube, input: Input) returns (first: Exit, second: Exit, ghost between: Snapshot)
    requires job.Connected() && kube.Valid() && WellFormedInput(input)
    modifies job, job.remote, kube
    ensures job.Connected() && kube.Valid() && old(job.remote.history) <= job.remote.history
    ensures job.remote.quiet && Clean(first) ==>
      && job.remote.lk == between.lk && !job.tableDropped
      && (job.remote.calls == between.calls || PutOnly(between.calls, job.remote.calls))
    ensures job.remote.quiet && Clean(first) && second.failures == 0 ==>
      && kube.catalogs == between.catalogs && kube.sqlWarehouses == between.sqlWarehouses
      && kube.configMaps == between.configMaps && kube.writes == between.writes
    ensures job.remote.quiet && Clean(first) && second.published ==> TableExact(job.remote.Now(), job.own)
  {
    ghost var plan := PlanExists(input);
    ghost var roles := Roles(map[], map[], 0);
    first, roles := Tick(job, kube, input, roles, plan);
    between := Snapshot(job.remote.lk, kube.catalogs, kube.sqlWarehouses, kube.configMaps, job.remote.calls,
                        kube.writes);
    label once:
    second, roles := Tick(job, kube, input, roles, plan);
    assert job.remote.quiet && Clean(first) ==> job.AskedOnlyToPut@once();
    assert job.remote.quiet && Clean(first) && second.failures == 0 ==> kube.Unwritten@once();
  }
}
