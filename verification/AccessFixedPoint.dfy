/** What a tick reads, the state it works towards, and what that state holds. */
module AccessFixedPoint {
  import opened Text
  import opened AccessModel
  import opened AccessTable
  import opened AccessJob
  import opened AccessRoles
  import opened AccessCatalogs
  import opened KubeApi
  import RG = ResourceGroups

  /** What one tick reads before its first write. `realm` holds the groups the realm has,
      with their members; `fixed` is `STATIC_ASSIGNEES`. */
  datatype Input = Input(catalogs: seq<Catalog>, warehouses: seq<RG.Warehouse>, realm: Members, fixed: Members,
                         admin: string, bucket: string)

  /** The API server's names are unique. */
  ghost predicate WellFormedInput(input: Input) {
    RG.DistinctNames(input.warehouses) && DistinctCatalogs(input.catalogs)
  }

  /** Every group the tick manages a role for. */
  function Groups(input: Input): set<string> {
    {input.admin}
    + (set i, g | 0 <= i < |input.catalogs| && g in DeclaredGroups(input.catalogs[i].spec) :: g)
    + (set i, g | 0 <= i < |input.warehouses| && g in input.warehouses[i].spec.grants :: g)
  }

  function Unknown(input: Input): set<string> {
    Groups(input) - input.realm.Keys
  }

  function Known(input: Input): set<string> {
    Groups(input) * input.realm.Keys
  }

  /** The members the realm lists for the known groups. */
  function KnownMembers(input: Input): Members {
    map g | g in Known(input) :: input.realm[g]
  }

  // ---------- the fixed point ----------

  /** Nothing is left to do for the roles and the admin group. */
  ghost predicate RolesFixed(lk: Lakekeeper, input: Input, roles: Roles) {
    && roles.failures == 0
    && RolesReady(lk, input, roles)
    && QuietDone(lk, Known(input), roles, KnownMembers(input), input.fixed)
  }

  /** The admin group's role holds `project_admin`. */
  predicate AdminGranted(lk: Lakekeeper, input: Input, ids: RoleIds) {
    input.admin in ids && Assignment(ProjectAdmin, RoleRef(ids[input.admin])) in lk.project
  }

  /** The roles of a tick, with the admin role holding `project_admin`. */
  ghost predicate RolesReady(lk: Lakekeeper, input: Input, roles: Roles) {
    && RolesDone(lk, Known(input), roles, KnownMembers(input), input.fixed)
    && AdminGranted(lk, input, roles.ids)
  }

  /** Nothing is left to write in Lakekeeper or in a Catalog's status. */
  ghost predicate LakeSettled(lk: Lakekeeper, statuses: Statuses, input: Input, own: Option<string>, roles: Roles) {
    && RolesFixed(lk, input, roles)
    && CatalogsSettled(lk, statuses, input.catalogs, input.bucket, Unknown(input), roles, own)
  }

  /** Two syncs of the same roles found the same ids, and the one that failed nowhere has
      the fewest problems. */
  lemma RolesAgree(lk: Lakekeeper, input: Input, r0: Roles, r1: Roles, g: string)
    requires UniqueRoleNames(lk) && RolesFixed(lk, input, r0)
    requires RolesDone(lk, Known(input), r1, KnownMembers(input), input.fixed)
    requires QuietDone(lk, Known(input), r1, KnownMembers(input), input.fixed)
    ensures g in r0.ids && g in r1.ids ==> r0.ids[g] == r1.ids[g]
    ensures g in r0.problems ==> g in r1.problems
    ensures g in Known(input) && g !in r1.problems ==> g in r0.ids && g in r1.ids
    ensures r1.failures == 0 && g in r1.problems ==> g in r0.problems && r1.problems[g] == r0.problems[g]
  {
    if g in r0.ids && g in r1.ids {
      assert IsRole(lk, g, r0.ids[g]) && IsRole(lk, g, r1.ids[g]);
    }
  }

  ghost predicate SameProblem(a: Problems, b: Problems, g: string) {
    (g in a <==> g in b) && (g in a ==> a[g] == b[g])
  }

  lemma SameProblems(a: Problems, b: Problems)
    requires forall g :: SameProblem(a, b, g)
    ensures a == b
  {
    forall g ensures (g in a <==> g in b) && (g in a ==> a[g] == b[g]) {
      assert SameProblem(a, b, g);
    }
  }

  lemma ProblemsAgree(lk: Lakekeeper, input: Input, r0: Roles, r1: Roles)
    requires UniqueRoleNames(lk) && RolesFixed(lk, input, r0) && r1.failures == 0
    requires RolesDone(lk, Known(input), r1, KnownMembers(input), input.fixed)
    requires QuietDone(lk, Known(input), r1, KnownMembers(input), input.fixed)
    ensures r0.problems == r1.problems
  {
    forall g ensures SameProblem(r0.problems, r1.problems, g) { RolesAgree(lk, input, r0, r1, g); }
    SameProblems(r0.problems, r1.problems);
  }

  lemma SamePairs(desired: set<(Relation, string)>, a: RoleIds, b: RoleIds)
    requires forall p :: p in desired ==> p.1 in a && p.1 in b && a[p.1] == b[p.1]
    ensures RolePairs(desired, a) == RolePairs(desired, b)
  {
    forall q ensures q in RolePairs(desired, a) <==> q in RolePairs(desired, b) {
    }
  }

  /** Without a blocked group the two name the same grants. */
  lemma PairsAgree(lk: Lakekeeper, input: Input, r0: Roles, r1: Roles, spec: CatalogSpec)
    requires UniqueRoleNames(lk) && RolesFixed(lk, input, r0)
    requires RolesDone(lk, Known(input), r1, KnownMembers(input), input.fixed)
    requires QuietDone(lk, Known(input), r1, KnownMembers(input), input.fixed)
    requires DeclaredGroups(spec) <= Groups(input) && GrantVerdict(spec, Unknown(input), r1.problems).ready
    ensures GrantVerdict(spec, Unknown(input), r0.problems).ready
    ensures RolePairs(DesiredPairs(spec), r0.ids) == RolePairs(DesiredPairs(spec), r1.ids)
  {
    forall g | g in DeclaredGroups(spec)
      ensures g !in r0.problems && g in r0.ids && g in r1.ids && r0.ids[g] == r1.ids[g]
    {
      assert g !in DeclaredGroups(spec) * Unknown(input) && g !in DeclaredGroups(spec) * r1.problems.Keys;
      RolesAgree(lk, input, r0, r1, g);
    }
    assert DeclaredGroups(spec) * r0.problems.Keys == {};
    forall p | p in DesiredPairs(spec) ensures p.1 in DeclaredGroups(spec) { PairGroupDeclared(spec, p); }
    SamePairs(DesiredPairs(spec), r0.ids, r1.ids);
  }

  lemma CalmAgain(lk: Lakekeeper, statuses: Statuses, input: Input, own: Option<string>, r0: Roles, r1: Roles, i: nat)
    requires UniqueRoleNames(lk) && LakeSettled(lk, statuses, input, own, r0) && i < |input.catalogs|
    requires RolesDone(lk, Known(input), r1, KnownMembers(input), input.fixed)
    requires QuietDone(lk, Known(input), r1, KnownMembers(input), input.fixed)
    ensures CatalogCalm(lk, input.catalogs[i], input.bucket, Unknown(input), r1)
  {
    var c := input.catalogs[i];
    if CatalogProblem(c, input.bucket) == None {
      assert CatalogSettled(lk, statuses, c, input.bucket, Unknown(input), r0, own);
      if GrantVerdict(c.spec, Unknown(input), r1.problems).ready {
        PairsAgree(lk, input, r0, r1, c.spec);
      }
    }
  }

  lemma SettledAgain(lk: Lakekeeper, statuses: Statuses, input: Input, own: Option<string>, r0: Roles, r1: Roles,
                     i: nat)
    requires UniqueRoleNames(lk) && LakeSettled(lk, statuses, input, own, r0) && i < |input.catalogs|
    requires RolesDone(lk, Known(input), r1, KnownMembers(input), input.fixed)
    requires QuietDone(lk, Known(input), r1, KnownMembers(input), input.fixed)
    requires r1.failures == 0
    ensures CatalogSettled(lk, statuses, input.catalogs[i], input.bucket, Unknown(input), r1, own)
  {
    var c := input.catalogs[i];
    assert CatalogSettled(lk, statuses, c, input.bucket, Unknown(input), r0, own);
    ProblemsAgree(lk, input, r0, r1);
    if CatalogProblem(c, input.bucket) == None {
      var v := GrantVerdict(c.spec, Unknown(input), r1.problems);
      if v.ready { PairsAgree(lk, input, r0, r1, c.spec); }
      ValidSettledAgain(lk, statuses, c, v, r0, r1, own);
    }
  }

  lemma ValidSettledAgain(lk: Lakekeeper, statuses: Statuses, c: Catalog, v: Verdict, r0: Roles, r1: Roles,
                          own: Option<string>)
    requires ValidSettled(lk, statuses, c, v, r0, own)
    requires v.ready ==> RolePairs(DesiredPairs(c.spec), r0.ids) == RolePairs(DesiredPairs(c.spec), r1.ids)
    ensures ValidSettled(lk, statuses, c, v, r1, own)
  {
  }

  /** A settled state is calm for whatever roles a quiet tick finds, and settled for them
      when none of them failed. */
  lemma SettledForAll(lk: Lakekeeper, statuses: Statuses, input: Input, own: Option<string>, before: Roles,
                      roles: Roles)
    requires UniqueRoleNames(lk) && LakeSettled(lk, statuses, input, own, before)
    requires RolesDone(lk, Known(input), roles, KnownMembers(input), input.fixed)
    requires QuietDone(lk, Known(input), roles, KnownMembers(input), input.fixed)
    ensures CatalogsCalm(lk, input.catalogs, input.bucket, Unknown(input), roles)
    ensures roles.failures == 0 ==>
      CatalogsSettled(lk, statuses, input.catalogs, input.bucket, Unknown(input), roles, own)
  {
    forall i | 0 <= i < |input.catalogs|
      ensures CatalogCalm(lk, input.catalogs[i], input.bucket, Unknown(input), roles)
    {
      CalmAgain(lk, statuses, input, own, before, roles, i);
    }
    if roles.failures == 0 {
      forall i | 0 <= i < |input.catalogs|
        ensures CatalogSettled(lk, statuses, input.catalogs[i], input.bucket, Unknown(input), roles, own)
      {
        SettledAgain(lk, statuses, input, own, before, roles, i);
      }
    }
  }

  // ---------- what the fixed point holds ----------

  /** The tick works on this group: the admin group, one a Catalog names, or one a warehouse
      grants. */
  predicate Concerned(input: Input, g: string) {
    || g == input.admin
    || (exists c | c in input.catalogs :: NamesGroup(c.spec, g))
    || (exists w | w in input.warehouses :: g in w.spec.grants)
  }

  lemma GroupsExactly(input: Input, g: string)
    ensures g in Groups(input) <==> Concerned(input, g)
  {
    if g in Groups(input) && g != input.admin {
      if i :| 0 <= i < |input.catalogs| && g in DeclaredGroups(input.catalogs[i].spec) {
        GroupsDeclared(input.catalogs[i].spec);
        assert input.catalogs[i] in input.catalogs;
      } else {
        var i :| 0 <= i < |input.warehouses| && g in input.warehouses[i].spec.grants;
        assert input.warehouses[i] in input.warehouses;
      }
    }
    if c :| c in input.catalogs && NamesGroup(c.spec, g) { GroupsDeclared(c.spec); }
  }

  /** `u` is in group `g`, by the realm or by `STATIC_ASSIGNEES`. */
  predicate InGroup(input: Input, g: string, u: string) {
    (g in input.realm && u in input.realm[g]) || (g in input.fixed && u in input.fixed[g])
  }

  lemma UsersExactly(input: Input, g: string, u: string)
    requires Concerned(input, g)
    ensures u in GroupUsers(g, KnownMembers(input), input.fixed) <==> InGroup(input, g, u)
  {
    GroupsExactly(input, g);
  }

  /** The assignees of a role are the users of its group. */
  ghost predicate HoldsUsers(role: Role, input: Input, g: string) {
    forall a :: a in role.assignees <==> exists u :: InGroup(input, g, u) && a == "oidc~" + u
  }

  /** The group has a managed role that holds its users and nobody else, unless a role of
      somebody else has its name. */
  ghost predicate RoleDeclared(lk: Lakekeeper, input: Input, g: string) {
    Conflicting(lk, g) || exists r :: ManagedRole(lk, r) && IsRole(lk, g, r) && HoldsUsers(lk.roles[r], input, g)
  }

  /** The realm has the group, and its role is not somebody else's. */
  ghost predicate Usable(lk: Lakekeeper, input: Input, g: string) {
    g in input.realm && !Conflicting(lk, g)
  }

  /** The grants a Catalog declares are what the managed roles hold on its warehouse. */
  ghost predicate GrantsDeclared(lk: Lakekeeper, c: Catalog) {
    c.name in lk.warehouses && forall a: Assignment :: ManagedSubject(lk, a.subject) ==>
      (a in lk.warehouses[c.name] <==> Asks(c.spec, a.relation, lk.roles[a.subject.role].name))
  }

  ghost predicate AllUsable(lk: Lakekeeper, input: Input, spec: CatalogSpec) {
    forall g :: NamesGroup(spec, g) ==> Usable(lk, input, g)
  }

  /** Why grants are applied or not: a group the realm does not have comes first. */
  ghost function GrantReason(lk: Lakekeeper, input: Input, spec: CatalogSpec): string {
    if AllUsable(lk, input, spec) then "Ready"
    else if exists g :: NamesGroup(spec, g) && g !in input.realm then "UnknownGroup"
    else "RoleConflict"
  }

  ghost function RuleBroken(c: Catalog): string {
    if !CatalogName(c.name) then "InvalidName"
    else if c.name in RESERVED_NAMES then "ReservedName"
    else "BucketsNotBuilt"
  }

  /** A Catalog is as its object declares: a broken rule is reported; otherwise it has its
      warehouse, its declared grants if its groups are usable, and a status that says so. */
  ghost predicate CatalogDeclared(lk: Lakekeeper, statuses: Statuses, input: Input, own: Option<string>, c: Catalog) {
    && c.name in statuses
    && if !MayStand(c, input.bucket) then InvalidSaid(statuses[c.name], RuleBroken(c)) else
         && c.name in lk.warehouses
         && ReadySaid(statuses[c.name], c.name, AllUsable(lk, input, c.spec), GrantReason(lk, input, c.spec),
                      HasForeign(lk, c.name, own))
         && (AllUsable(lk, input, c.spec) ==> GrantsDeclared(lk, c))
  }

  ghost predicate AdminDeclared(lk: Lakekeeper, input: Input) {
    exists r :: ManagedRole(lk, r) && IsRole(lk, input.admin, r) && Assignment(ProjectAdmin, RoleRef(r)) in lk.project
  }

  /** Lakekeeper and the statuses of the Catalogs are what the input declares. */
  ghost predicate AsDeclared(lk: Lakekeeper, statuses: Statuses, input: Input, own: Option<string>) {
    && AdminDeclared(lk, input)
    && (forall g :: Concerned(input, g) && g in input.realm ==> RoleDeclared(lk, input, g))
    && (forall c :: c in input.catalogs ==> CatalogDeclared(lk, statuses, input, own, c))
  }

  lemma ExactHolds(lk: Lakekeeper, input: Input, r: RoleId, g: string)
    requires Concerned(input, g) && RoleExact(lk, r, g, GroupUsers(g, KnownMembers(input), input.fixed))
    ensures HoldsUsers(lk.roles[r], input, g)
  {
    var users := GroupUsers(g, KnownMembers(input), input.fixed);
    forall a ensures a in lk.roles[r].assignees <==> exists u :: InGroup(input, g, u) && a == "oidc~" + u {
      if a in Principals(users) {
        var u :| u in users && a == Principal(u);
        UsersExactly(input, g, u);
        assert InGroup(input, g, u) && a == "oidc~" + u;
      }
      if u :| InGroup(input, g, u) && a == "oidc~" + u {
        UsersExactly(input, g, u);
        assert a == Principal(u) && u in users;
      }
    }
  }

  /** In a fixed point the groups with a problem are those whose role is somebody else's. */
  lemma ProblemsAreConflicts(lk: Lakekeeper, input: Input, roles: Roles, g: string)
    requires UniqueRoleNames(lk) && RolesFixed(lk, input, roles) && Concerned(input, g) && g in input.realm
    ensures g in roles.problems <==> Conflicting(lk, g)
    ensures g in roles.problems ==> roles.problems[g].reason == "RoleConflict"
    ensures g !in roles.problems ==>
      g in roles.ids && ManagedRole(lk, roles.ids[g]) && IsRole(lk, g, roles.ids[g]) &&
      HoldsUsers(lk.roles[roles.ids[g]], input, g)
  {
    GroupsExactly(input, g);
    assert g in Known(input);
    if g !in roles.problems {
      ExactHolds(lk, input, roles.ids[g], g);
      forall r | IsRole(lk, g, r) ensures lk.roles[r].managed { assert r == roles.ids[g]; }
    }
  }

  lemma GroupUsable(lk: Lakekeeper, input: Input, roles: Roles, c: Catalog, g: string)
    requires UniqueRoleNames(lk) && RolesFixed(lk, input, roles) && c in input.catalogs && NamesGroup(c.spec, g)
    ensures g in Unknown(input) <==> g !in input.realm
    ensures g !in Unknown(input) && g !in roles.problems <==> Usable(lk, input, g)
    ensures g !in Unknown(input) && g in roles.problems ==> roles.problems[g].reason == "RoleConflict"
  {
    assert Concerned(input, g);
    GroupsExactly(input, g);
    if g in input.realm { ProblemsAreConflicts(lk, input, roles, g); }
  }

  lemma ClearIsUsable(lk: Lakekeeper, input: Input, roles: Roles, c: Catalog)
    requires UniqueRoleNames(lk) && RolesFixed(lk, input, roles) && c in input.catalogs
    ensures GroupsClear(c.spec, Unknown(input), roles.problems) <==> AllUsable(lk, input, c.spec)
    ensures GrantVerdict(c.spec, Unknown(input), roles.problems).reason == GrantReason(lk, input, c.spec)
  {
    VerdictExactly(c.spec, Unknown(input), roles.problems);
    forall g | NamesGroup(c.spec, g)
      ensures g in Unknown(input) <==> g !in input.realm
      ensures g !in Unknown(input) && g !in roles.problems <==> Usable(lk, input, g)
      ensures g !in Unknown(input) && g in roles.problems ==> roles.problems[g].reason == "RoleConflict"
    {
      GroupUsable(lk, input, roles, c, g);
    }
  }

  /** The declared grants, role by role, as the warehouse shows them. */
  lemma ExactIsDeclared(lk: Lakekeeper, c: Catalog, ids: RoleIds)
    requires UniqueRoleNames(lk) && RolesNamed(lk, ids) && GrantsAre(lk, c.name, RolePairs(DesiredPairs(c.spec), ids))
    requires forall g :: NamesGroup(c.spec, g) ==> g in ids
    ensures GrantsDeclared(lk, c)
  {
    PairsExactly(c.spec);
    forall a: Assignment | ManagedSubject(lk, a.subject)
      ensures a in lk.warehouses[c.name] <==> Asks(c.spec, a.relation, lk.roles[a.subject.role].name)
    {
      var r := a.subject.role;
      var g := lk.roles[r].name;
      if a in lk.warehouses[c.name] {
        assert a in ManagedGrants(lk, c.name);
        var q :| q in RolePairs(DesiredPairs(c.spec), ids) && a == Assignment(q.0, RoleRef(q.1));
        var p :| p in DesiredPairs(c.spec) && p.1 in ids && q == (p.0, ids[p.1]);
        assert IsRole(lk, p.1, ids[p.1]);
      }
      if Asks(c.spec, a.relation, g) {
        assert NamesGroup(c.spec, g);
        assert (a.relation, g) in DesiredPairs(c.spec) && IsRole(lk, g, ids[g]);
        assert ids[g] == r;
        assert (a.relation, r) in RolePairs(DesiredPairs(c.spec), ids);
        assert a in RoleGrants(RolePairs(DesiredPairs(c.spec), ids));
      }
    }
  }

  lemma CatalogAsDeclared(lk: Lakekeeper, statuses: Statuses, input: Input, own: Option<string>, roles: Roles,
                          c: Catalog)
    requires UniqueRoleNames(lk) && RolesFixed(lk, input, roles) && RolesNamed(lk, roles.ids) && c in input.catalogs
    requires CatalogSettled(lk, statuses, c, input.bucket, Unknown(input), roles, own)
    ensures CatalogDeclared(lk, statuses, input, own, c)
  {
    ProblemExactly(c, input.bucket);
    var problem := CatalogProblem(c, input.bucket);
    if problem.Some? {
      InvalidStatus(statuses[c.name], problem.value);
    } else {
      var v, foreign := GrantVerdict(c.spec, Unknown(input), roles.problems), |ForeignGrants(lk, c.name, own)|;
      VerdictExactly(c.spec, Unknown(input), roles.problems);
      ClearIsUsable(lk, input, roles, c);
      ReadyStatus(statuses[c.name], c.name, v, foreign);
      ForeignExactly(lk, c.name, own);
      if v.ready {
        forall g | NamesGroup(c.spec, g) ensures g in roles.ids {
          assert Usable(lk, input, g) && Concerned(input, g);
          ProblemsAreConflicts(lk, input, roles, g);
        }
        ExactIsDeclared(lk, c, roles.ids);
      }
    }
  }

  lemma CatalogsAsDeclared(lk: Lakekeeper, statuses: Statuses, input: Input, own: Option<string>, roles: Roles)
    requires UniqueRoleNames(lk) && LakeSettled(lk, statuses, input, own, roles)
    ensures forall c :: c in input.catalogs ==> CatalogDeclared(lk, statuses, input, own, c)
  {
    forall c | c in input.catalogs ensures CatalogDeclared(lk, statuses, input, own, c) {
      var i :| 0 <= i < |input.catalogs| && input.catalogs[i] == c;
      SettledAt(lk, statuses, input.catalogs, i, input.bucket, Unknown(input), roles, own);
      CatalogAsDeclared(lk, statuses, input, own, roles, c);
    }
  }

  lemma RolesAsDeclared(lk: Lakekeeper, input: Input, roles: Roles)
    requires UniqueRoleNames(lk) && RolesFixed(lk, input, roles)
    ensures AdminDeclared(lk, input)
    ensures forall g :: Concerned(input, g) && g in input.realm ==> RoleDeclared(lk, input, g)
  {
    forall g | Concerned(input, g) && g in input.realm ensures RoleDeclared(lk, input, g) {
      ProblemsAreConflicts(lk, input, roles, g);
    }
    var r := roles.ids[input.admin];
    assert ManagedRole(lk, r) && IsRole(lk, input.admin, r);
  }

  /** What is settled is as declared. */
  lemma SettledIsDeclared(lk: Lakekeeper, statuses: Statuses, input: Input, own: Option<string>, roles: Roles)
    requires UniqueRoleNames(lk) && LakeSettled(lk, statuses, input, own, roles)
    ensures AsDeclared(lk, statuses, input, own)
  {
    RolesAsDeclared(lk, input, roles);
    CatalogsAsDeclared(lk, statuses, input, own, roles);
  }
}
