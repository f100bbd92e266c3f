/** Two limits of the access table, each on services that show it. */
module AccessLimits {
  import opened Text
  import opened AccessModel
  import opened AccessTable
  import opened LakekeeperApi
  import opened AccessJob
  import opened AccessRoles
  import opened AccessCatalogs
  import opened AccessFixedPoint
  import opened AccessTick

  // ---------- a DELETE that does not arrive ----------

  const ANALYSTS := Role("analysts", true, {"oidc~ann"}, {})
  const BEFORE := Lakekeeper(map[0 := ANALYSTS], map["sales" := {Assignment(Select, RoleRef(0))}], {})
  const STALE: Table := map["sales" := Entry(false, [], map[SelectVerb := ["ann"]], [])]

  function StaleRun(): seq<Moment> {
    [Moment(Others, World(BEFORE, Some(STALE)), false, false),
     Moment(Job, World(BEFORE, Some(STALE)), true, false),
     Moment(Job, World(WithAssignees(BEFORE, 0, {}), Some(STALE)), true, false)]
  }

  lemma SalesBacked()
    ensures TableBacked(World(BEFORE, Some(STALE)))
  {
    var a := Assignment(Select, RoleRef(0));
    forall c, v, u | c in STALE && Listed(STALE[c], v, u) ensures Backed(BEFORE, c, v, u) {
      assert Principal("ann") == "oidc~ann";
      assert a in BEFORE.warehouses["sales"] && Gives(a.relation, v);
      assert ManagedSubject(BEFORE, a.subject) && ActsFor(BEFORE, a.subject, u);
    }
  }

  lemma StaleUnsound()
    ensures !TableSound(World(WithAssignees(BEFORE, 0, {}), Some(STALE)))
    ensures !TableBacked(World(WithAssignees(BEFORE, 0, {}), Some(STALE)))
  {
    assert Listed(STALE["sales"], SelectVerb, "ann");
    assert !Effective(WithAssignees(BEFORE, 0, {}), "sales", SelectVerb, "ann");
  }

  lemma StaleAccounted()
    ensures Accounted(StaleRun(), [DeletedTable(false), PostedAssignees])
  {
    var h := StaleRun();
    assert h[..3][..2] == h[..2] && h[..2][..1] == h[..1] && h[..1][..0] == [];
    assert !h[0].adminLost && !h[1].adminLost && !h[2].adminLost;
    assert h[..3] == h;
    assert NoAdminLost(h[..1]);
    assert NoAdminLost(h[..2]);
  }

  /** The removal goes ahead when the DELETE before it fails, so a table OPA kept can list
      somebody who has lost the right: soundness needs every DELETE asked for to succeed. */
  lemma FailedDropLeavesStale()
    ensures Run(StaleRun(), "oidc~sync")
    ensures StaleRun()[2].dropLost && !TableSound(StaleRun()[2].world)
    ensures Accounted(StaleRun(), [DeletedTable(false), PostedAssignees])
  {
    StaleAccounted();
    SalesBacked();
    var h := StaleRun();
    Unchanged(BEFORE, "oidc~sync");
    AssigneesStep(BEFORE, 0, {}, "oidc~sync");
    assert forall c, u :: c in STALE ==> u !in STALE[c].manage && u !in STALE[c].all;
    assert Acceptable(h[0]);
    StaleUnsound();
  }

  /** The job's own call, on those services: once the removal is accepted, the table that is
      left is sound exactly when it is gone, and one that is left is known to be one whose
      DELETE failed. */
  method RemoveWithTable(job: Job) returns (result: Result<(nat, nat)>)
    requires job.Valid() && job.remote.quiet && job.remote.lk == BEFORE && job.remote.table == Some(STALE)
    modifies job, job.remote
    ensures job.Valid() && (job.remote.table == None || job.remote.table == Some(STALE))
    ensures result.Ok? ==> (TableSound(job.remote.Now()) <==> job.remote.table == None)
    ensures result.Ok? && job.remote.table.Some? ==> job.remote.dropLost
  {
    result := job.PostAssigneeChange(0, {"oidc~ann"}, {});
    StaleUnsound();
    if result.Ok? && job.remote.table.Some? { LostWhenUnbacked(job.remote); }
  }

  lemma LostWhenUnbacked(remote: Remote)
    requires remote.Valid() && !TableBacked(remote.Now())
    ensures remote.dropLost
  {
    assert Acceptable(remote.history[|remote.history| - 1]);
  }

  // ---------- a failed sync of the admin role ----------

  const SALES := CatalogSpec("", [], "")
  const INPUT := Input([Catalog("sales", SALES)], [], map["admins" := {"ann"}], map[], "admins", "bucket")
  const LAKE :=
    Lakekeeper(map[0 := Role("admins", true, {}, {})], map["sales" := {}], {Assignment(ProjectAdmin, RoleRef(0))})
  const FOUND := Roles(map["admins" := 0], map["admins" := ASSIGNEES_FAILED], 1)
  const LIST: seq<Published> := [Published("sales", SALES, 0)]

  lemma NothingDeclared()
    ensures DeclaredGroups(SALES) == {} && RoleGrants(RolePairs(DesiredPairs(SALES), FOUND.ids)) == {}
  {
    assert DesiredPairs(SALES) == {};
  }

  lemma SalesGranted()
    ensures WasGranted(LAKE, true, LIST[0], FOUND.ids, None)
  {
    NothingDeclared();
    assert ManagedGrants(LAKE, "sales") == {} && ForeignGrants(LAKE, "sales", None) == {};
  }

  lemma SalesPublishable()
    ensures Publishable(Catalog("sales", SALES), "bucket", Unknown(INPUT), FOUND.problems)
  {
    NothingDeclared();
    CatalogNameExactly("sales");
    assert DeclaredGroups(SALES) * FOUND.problems.Keys == {};
  }

  lemma SalesMayBePublished()
    ensures MayPublish(LAKE, true, LIST[0], "bucket", Unknown(INPUT), FOUND, None)
  {
    SalesGranted();
    SalesPublishable();
  }

  lemma SalesListed()
    ensures AmongFirst(LIST[0], INPUT.catalogs, 1)
  {
    assert IsPublished(LIST[0], INPUT.catalogs[0]);
  }

  lemma OnePublished(lk: Lakekeeper, p: Published, catalogs: seq<Catalog>, bucket: string, unknown: set<string>,
                     roles: Roles)
    requires MayPublish(lk, true, p, bucket, unknown, roles, None) && 1 <= |catalogs| && AmongFirst(p, catalogs, 1)
    ensures PublishedSoFar(lk, true, [p], catalogs, 1, bucket, unknown, roles, None)
  {
  }

  lemma SalesPublished()
    ensures PublishedSoFar(LAKE, true, LIST, INPUT.catalogs, 1, "bucket", Unknown(INPUT), FOUND, None)
  {
    SalesMayBePublished();
    SalesListed();
    OnePublished(LAKE, LIST[0], INPUT.catalogs, "bucket", Unknown(INPUT), FOUND);
  }

  lemma AdminFound()
    ensures RolesReady(LAKE, INPUT, FOUND)
    ensures QuietDone(LAKE, Known(INPUT), FOUND, KnownMembers(INPUT), INPUT.fixed)
  {
    assert Groups(INPUT) == {"admins"};
  }

  lemma SalesReady()
    ensures Publishables(LAKE, true, INPUT, None, FOUND, LIST, 1)
  {
    AdminFound();
    SalesPublished();
  }

  lemma AnnListed(document: Table)
    requires IsDocument(document, LIST, "admins", KnownMembers(INPUT), map[])
    ensures "sales" in document && "ann" in document["sales"].all
    ensures !AllBacked(World(LAKE, Some(document)))
  {
    assert "ann" in GroupUsers("admins", KnownMembers(INPUT), map[]);
    assert LIST[0].name in document && document[LIST[0].name] == EntryOf(LIST[0], "admins", KnownMembers(INPUT), map[]);
    assert !BackedAdmin(LAKE, "ann");
  }

  /** The role id is known before its assignees are written, so a tick whose sync of the
      admin role failed still publishes `all` from the realm: with the job's own calls,
      assignees that could not be read or written and then the document, it lists somebody who
      administers nothing. */
  method BuildAfterFailedSync(job: Job) returns (synced: Result<(nat, nat)>, document: Table)
    requires job.Valid() && job.remote.quiet && job.remote.lk == LAKE
    modifies job, job.remote
    ensures synced.Err? ==>
      && DocumentHolds(job.remote.lk, true, INPUT, None, FOUND, 1, document)
      && "sales" in document && "ann" in document["sales"].all && !BackedAdmin(job.remote.lk, "ann")
      && !AllBacked(World(job.remote.lk, Some(document)))
  {
    document := map[];
    synced := job.SyncAssignees(0, {"ann"});
    if synced.Err? {
      SalesReady();
      document := BuildDocument(LAKE, true, INPUT, FOUND, LIST, None, 1);
      AnnListed(document);
      assert !BackedAdmin(LAKE, "ann");
    }
  }
}
