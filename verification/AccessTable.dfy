/** The catalog decision table: what the job publishes for a Catalog, and why it agrees
    with what Lakekeeper derives from the grants the same tick wrote. */
module AccessTable {
  import opened Text
  import opened AccessModel

  datatype Grant = Grant(verb: Verb, group: string)

  /** An empty `owner` or `bucket` is an absent one. */
  datatype CatalogSpec = CatalogSpec(owner: string, grants: seq<Grant>, bucket: string)

  datatype Catalog = Catalog(name: string, spec: CatalogSpec)

  /** Group name -> users, as the realm or `STATIC_ASSIGNEES` lists them. */
  type Members = map<string, set<string>>

  /** A Catalog whose grants the tick applied, with its count of foreign grants. */
  datatype Published = Published(name: string, spec: CatalogSpec, foreign: nat)

  const TABLE_VERBS: set<Verb> := {Browse, SelectVerb, Write, CreateVerb}

  function MembersOf(g: string, m: Members): set<string> {
    if g in m then m[g] else {}
  }

  function GroupUsers(g: string, members: Members, fixed: Members): set<string> {
    MembersOf(g, members) + MembersOf(g, fixed)
  }

  function Principals(users: set<string>): set<string> {
    set u | u in users :: Principal(u)
  }

  lemma InPrincipals(users: set<string>, u: string)
    ensures Principal(u) in Principals(users) <==> u in users
  {
    if Principal(u) in Principals(users) {
      var w :| w in users && Principal(w) == Principal(u);
      PrincipalInjective(u, w);
    }
  }

  // ---------- what a spec asks for ----------

  function DeclaredGroups(spec: CatalogSpec): set<string> {
    (if spec.owner != "" then {spec.owner} else {}) +
    (set i | 0 <= i < |spec.grants| && spec.grants[i].group != "" :: spec.grants[i].group)
  }

  /** The pair one grant asks for: a known verb's relation, for a named group. */
  function GrantPairs(g: Grant): set<(Relation, string)> {
    if VerbRelation(g.verb).Some? && g.group != "" then {(VerbRelation(g.verb).value, g.group)} else {}
  }

  function DesiredPairs(spec: CatalogSpec): set<(Relation, string)> {
    (if spec.owner != "" then {(ManageGrants, spec.owner)} else {}) +
    (set i, p | 0 <= i < |spec.grants| && p in GrantPairs(spec.grants[i]) :: p)
  }

  /** A spec asks for a relation on its warehouse for a group: `manage_grants` for the
      owner, and for a group a grant names the relation of the grant's verb. */
  predicate Asks(spec: CatalogSpec, r: Relation, g: string) {
    g != "" && ((r == ManageGrants && g == spec.owner) ||
                exists i | 0 <= i < |spec.grants| :: spec.grants[i].group == g && Means(spec.grants[i].verb, r))
  }

  predicate Means(v: Verb, r: Relation) {
    || (v == Browse && r == Describe) || (v == SelectVerb && r == Select) || (v == Write && r == Modify)
    || (v == CreateVerb && r == Create) || (v == Manage && r == ManageGrants)
  }

  lemma PairsExactly(spec: CatalogSpec)
    ensures forall p :: p in DesiredPairs(spec) <==> Asks(spec, p.0, p.1)
  {
    forall p ensures p in DesiredPairs(spec) <==> Asks(spec, p.0, p.1) {
      if Asks(spec, p.0, p.1) && !(p.0 == ManageGrants && p.1 == spec.owner) {
        var i :| 0 <= i < |spec.grants| && spec.grants[i].group == p.1 && Means(spec.grants[i].verb, p.0);
        assert p in GrantPairs(spec.grants[i]);
      }
    }
  }

  /** `desired_relations`. */
  method DesiredRelations(spec: CatalogSpec) returns (desired: set<(Relation, string)>)
    ensures desired == DesiredPairs(spec)
    ensures forall p :: p in desired ==> p.1 in DeclaredGroups(spec)
  {
    desired := {};
    if spec.owner != "" {
      desired := desired + {(ManageGrants, spec.owner)};
    }
    ghost var owner := desired;
    for k := 0 to |spec.grants|
      invariant forall p :: p in desired <==>
        p in owner || exists i :: 0 <= i < k && p in GrantPairs(spec.grants[i])
    {
      ghost var before := desired;
      var relation := VerbRelation(spec.grants[k].verb);
      if relation.Some? && spec.grants[k].group != "" {
        desired := desired + {(relation.value, spec.grants[k].group)};
      }
      assert desired == before + GrantPairs(spec.grants[k]);
    }
  }

  // ---------- the lists ----------

  /** Who the table lists for `v`: the users of every group granted a verb that gives it. */
  function ListedUsers(spec: CatalogSpec, members: Members, fixed: Members, v: Verb): set<string> {
    set i, u | 0 <= i < |spec.grants| && spec.grants[i].group != "" && v in ImpliedVerbs(spec.grants[i].verb)
               && u in GroupUsers(spec.grants[i].group, members, fixed) :: u
  }

  type Held = map<string, set<Verb>>

  predicate Granted(spec: CatalogSpec, n: nat, g: string, v: Verb)
    requires n <= |spec.grants|
  {
    g != "" && ImpliedVerbs(v) != {} && exists i | 0 <= i < n :: spec.grants[i] == Grant(v, g)
  }

  /** The verbs each group was granted, unknown verbs and `manage` left out. */
  method HeldVerbs(spec: CatalogSpec) returns (held: Held)
    ensures forall g, v :: (g in held && v in held[g]) <==> Granted(spec, |spec.grants|, g, v)
  {
    held := map[];
    for k := 0 to |spec.grants|
      invariant forall g, v :: (g in held && v in held[g]) <==> Granted(spec, k, g, v)
    {
      forall g, v ensures Granted(spec, k + 1, g, v) <==>
        Granted(spec, k, g, v) || (g != "" && ImpliedVerbs(v) != {} && spec.grants[k] == Grant(v, g))
      {
      }
      var Grant(verb, group) := spec.grants[k];
      if ImpliedVerbs(verb) != {} && group != "" {
        held := held[group := (if group in held then held[group] else {}) + {verb}];
      }
    }
  }

  function UsersHolding(held: Held, groups: set<string>, members: Members, fixed: Members, v: Verb): set<string> {
    set g, w, u | g in groups && g in held && w in held[g] && v in ImpliedVerbs(w)
                  && u in GroupUsers(g, members, fixed) :: u
  }

  /** One group's users, added to every list its verbs imply. */
  method AddGroup(lists: map<Verb, set<string>>, verbs: set<Verb>, users: set<string>)
    returns (result: map<Verb, set<string>>)
    requires lists.Keys == TABLE_VERBS
    ensures result.Keys == TABLE_VERBS
    ensures forall v :: v in TABLE_VERBS ==>
      result[v] == lists[v] + (if exists w :: w in verbs && v in ImpliedVerbs(w) then users else {})
  {
    result := lists;
    var left := verbs;
    while left != {}
      invariant left <= verbs && result.Keys == TABLE_VERBS
      invariant forall v :: v in TABLE_VERBS ==>
        result[v] == lists[v] + (if exists w :: w in verbs - left && v in ImpliedVerbs(w) then users else {})
    {
      var verb :| verb in left;
      ghost var before := result;
      var implied := ImpliedVerbs(verb);
      while implied != {}
        invariant implied <= ImpliedVerbs(verb) && result.Keys == TABLE_VERBS
        invariant forall v :: v in TABLE_VERBS ==>
          result[v] == before[v] + (if v in ImpliedVerbs(verb) - implied then users else {})
      {
        var effective :| effective in implied;
        result := result[effective := result[effective] + users];
        implied := implied - {effective};
      }
      left := left - {verb};
    }
  }

  lemma HoldingStep(held: Held, done: set<string>, g: string, members: Members, fixed: Members, v: Verb)
    requires g in held
    ensures UsersHolding(held, done + {g}, members, fixed, v)
         == UsersHolding(held, done, members, fixed, v)
            + (if exists w :: w in held[g] && v in ImpliedVerbs(w) then GroupUsers(g, members, fixed) else {})
  {
  }

  method HeldLists(held: Held, members: Members, fixed: Members) returns (sets: map<Verb, set<string>>)
    ensures sets.Keys == TABLE_VERBS
    ensures forall v :: v in TABLE_VERBS ==> sets[v] == UsersHolding(held, held.Keys, members, fixed, v)
  {
    sets := map v | v in TABLE_VERBS :: {};
    var left := held.Keys;
    ghost var done: set<string> := {};
    while left != {}
      invariant done + left == held.Keys && sets.Keys == TABLE_VERBS
      invariant forall v :: v in TABLE_VERBS ==> sets[v] == UsersHolding(held, done, members, fixed, v)
    {
      var group :| group in left;
      forall v | v in TABLE_VERBS { HoldingStep(held, done, group, members, fixed, v); }
      sets := AddGroup(sets, held[group], GroupUsers(group, members, fixed));
      left, done := left - {group}, done + {group};
    }
    assert done == held.Keys;
  }

  function SortAll(sets: map<Verb, set<string>>): map<Verb, seq<string>> {
    map v | v in sets :: Sorted(sets[v])
  }

  function ListedSets(spec: CatalogSpec, members: Members, fixed: Members): map<Verb, set<string>> {
    map v | v in TABLE_VERBS :: ListedUsers(spec, members, fixed, v)
  }

  function ListsOf(spec: CatalogSpec, members: Members, fixed: Members): map<Verb, seq<string>> {
    SortAll(ListedSets(spec, members, fixed))
  }

  lemma HeldListsAreListed(spec: CatalogSpec, held: Held, sets: map<Verb, set<string>>, members: Members,
                           fixed: Members)
    requires forall g, w :: (g in held && w in held[g]) <==> Granted(spec, |spec.grants|, g, w)
    requires sets.Keys == TABLE_VERBS
    requires forall v :: v in TABLE_VERBS ==> sets[v] == UsersHolding(held, held.Keys, members, fixed, v)
    ensures sets == ListedSets(spec, members, fixed)
  {
    forall v | v in TABLE_VERBS ensures sets[v] == ListedSets(spec, members, fixed)[v] {
      HoldingIsListed(spec, held, members, fixed, v);
    }
  }

  function ManagersOf(spec: CatalogSpec, members: Members, fixed: Members): seq<string> {
    if spec.owner != "" then Sorted(GroupUsers(spec.owner, members, fixed)) else []
  }

  /** `catalog_verb_lists`. */
  method CatalogVerbLists(spec: CatalogSpec, members: Members, fixed: Members)
    returns (lists: map<Verb, seq<string>>, manage: seq<string>)
    ensures lists == ListsOf(spec, members, fixed)
    ensures manage == ManagersOf(spec, members, fixed)
  {
    var held := HeldVerbs(spec);
    var sets := HeldLists(held, members, fixed);
    HeldListsAreListed(spec, held, sets, members, fixed);
    lists := SortAll(sets);
    manage := if spec.owner != "" then Sorted(GroupUsers(spec.owner, members, fixed)) else [];
  }

  lemma HoldingIsListed(spec: CatalogSpec, held: Held, members: Members, fixed: Members, v: Verb)
    requires forall g, w :: (g in held && w in held[g]) <==> Granted(spec, |spec.grants|, g, w)
    ensures UsersHolding(held, held.Keys, members, fixed, v) == ListedUsers(spec, members, fixed, v)
  {
    forall u | u in ListedUsers(spec, members, fixed, v)
      ensures u in UsersHolding(held, held.Keys, members, fixed, v)
    {
      var i :| 0 <= i < |spec.grants| && spec.grants[i].group != "" && v in ImpliedVerbs(spec.grants[i].verb)
               && u in GroupUsers(spec.grants[i].group, members, fixed);
      assert Granted(spec, |spec.grants|, spec.grants[i].group, spec.grants[i].verb);
    }
    forall u | u in UsersHolding(held, held.Keys, members, fixed, v)
      ensures u in ListedUsers(spec, members, fixed, v)
    {
      var g, w :| g in held && w in held[g] && v in ImpliedVerbs(w) && u in GroupUsers(g, members, fixed);
      assert Granted(spec, |spec.grants|, g, w);
    }
  }

  // ---------- the document ----------

  function EntryOf(p: Published, admin: string, members: Members, fixed: Members): Entry {
    Entry(p.foreign > 0,
          Sorted(GroupUsers(admin, members, fixed)),
          ListsOf(p.spec, members, fixed),
          ManagersOf(p.spec, members, fixed))
  }

  ghost predicate DistinctNames(published: seq<Published>) {
    forall i, j :: 0 <= i < j < |published| ==> published[i].name != published[j].name
  }

  /** `t` holds the entries of the first `n` published Catalogs, and nothing else. */
  ghost predicate DocumentOf(t: Table, published: seq<Published>, n: nat, admin: string, members: Members,
                             fixed: Members)
    requires n <= |published|
  {
    && (forall i :: 0 <= i < n ==>
          published[i].name in t && t[published[i].name] == EntryOf(published[i], admin, members, fixed))
    && (forall c :: c in t ==> exists i :: 0 <= i < n && published[i].name == c)
  }

  ghost predicate IsDocument(t: Table, published: seq<Published>, admin: string, members: Members, fixed: Members) {
    DocumentOf(t, published, |published|, admin, members, fixed)
  }

  method EntryFor(p: Published, admins: seq<string>, admin: string, members: Members, fixed: Members) returns (e: Entry)
    requires admins == Sorted(GroupUsers(admin, members, fixed))
    ensures e == EntryOf(p, admin, members, fixed)
  {
    var lists, manage := CatalogVerbLists(p.spec, members, fixed);
    e := Entry(p.foreign > 0, admins, lists, manage);
  }

  lemma DocumentExtends(t: Table, published: seq<Published>, k: nat, e: Entry, admin: string, members: Members,
                        fixed: Members)
    requires k < |published| && DistinctNames(published)
    requires DocumentOf(t, published, k, admin, members, fixed)
    requires e == EntryOf(published[k], admin, members, fixed)
    ensures DocumentOf(t[published[k].name := e], published, k + 1, admin, members, fixed)
  {
  }

  /** `access_table`. */
  method AccessDocument(published: seq<Published>, admin: string, members: Members, fixed: Members)
    returns (t: Table)
    requires DistinctNames(published)
    ensures IsDocument(t, published, admin, members, fixed)
  {
    var admins := Sorted(GroupUsers(admin, members, fixed));
    t := map[];
    for k := 0 to |published|
      invariant DocumentOf(t, published, k, admin, members, fixed)
    {
      var e := EntryFor(published[k], admins, admin, members, fixed);
      DocumentExtends(t, published, k, e, admin, members, fixed);
      t := t[published[k].name := e];
    }
  }

  // ---------- agreement with Lakekeeper ----------

  type RoleIds = map<string, RoleId>

  /** `declared` of one warehouse: the desired pairs of the groups that have a role. */
  function RolePairs(desired: set<(Relation, string)>, roleIds: RoleIds): set<(Relation, RoleId)> {
    set p | p in desired && p.1 in roleIds :: (p.0, roleIds[p.1])
  }

  /** The group's role is ours and holds at least its users. */
  ghost predicate GroupSynced(lk: Lakekeeper, roleIds: RoleIds, g: string, members: Members, fixed: Members) {
    g in roleIds && ManagedRole(lk, roleIds[g])
    && Principals(GroupUsers(g, members, fixed)) <= lk.roles[roleIds[g]].assignees
  }

  /** The grants a spec declares are on its warehouse, for roles that hold their users. */
  ghost predicate GrantsApplied(lk: Lakekeeper, name: string, spec: CatalogSpec, roleIds: RoleIds,
                                members: Members, fixed: Members) {
    && name in lk.warehouses
    && (forall g :: g in DeclaredGroups(spec) ==> GroupSynced(lk, roleIds, g, members, fixed))
    && RoleGrants(RolePairs(DesiredPairs(spec), roleIds)) <= lk.warehouses[name]
  }

  lemma GrantPairDesired(spec: CatalogSpec, i: nat, roleIds: RoleIds)
    requires i < |spec.grants| && VerbRelation(spec.grants[i].verb).Some? && spec.grants[i].group != ""
    requires spec.grants[i].group in roleIds
    ensures spec.grants[i].group in DeclaredGroups(spec)
    ensures Assignment(VerbRelation(spec.grants[i].verb).value, RoleRef(roleIds[spec.grants[i].group]))
              in RoleGrants(RolePairs(DesiredPairs(spec), roleIds))
  {
    var p := (VerbRelation(spec.grants[i].verb).value, spec.grants[i].group);
    assert p in GrantPairs(spec.grants[i]);
    assert p in DesiredPairs(spec);
    assert (p.0, roleIds[p.1]) in RolePairs(DesiredPairs(spec), roleIds);
  }

  /** Whoever the table lists for an applied spec holds the verb in Lakekeeper. */
  lemma ListedIsBacked(lk: Lakekeeper, name: string, spec: CatalogSpec, roleIds: RoleIds,
                       members: Members, fixed: Members, v: Verb, u: string)
    requires GrantsApplied(lk, name, spec, roleIds, members, fixed)
    requires u in ListedUsers(spec, members, fixed, v)
    ensures Backed(lk, name, v, u)
  {
    var i :| 0 <= i < |spec.grants| && spec.grants[i].group != "" && v in ImpliedVerbs(spec.grants[i].verb)
             && u in GroupUsers(spec.grants[i].group, members, fixed);
    var g := spec.grants[i].group;
    assert g in DeclaredGroups(spec);
    assert GroupSynced(lk, roleIds, g, members, fixed);
    GrantPairDesired(spec, i, roleIds);
    ImplicationsAgree(spec.grants[i].verb, v);
    InPrincipals(GroupUsers(g, members, fixed), u);
    var a := Assignment(VerbRelation(spec.grants[i].verb).value, RoleRef(roleIds[g]));
    assert a in lk.warehouses[name] && Gives(a.relation, v) && ManagedSubject(lk, a.subject) &&
      ActsFor(lk, a.subject, u);
  }

  /** Whoever the table lists as a manager holds `manage_grants`. */
  lemma ManagerIsBacked(lk: Lakekeeper, name: string, spec: CatalogSpec, roleIds: RoleIds,
                        members: Members, fixed: Members, u: string)
    requires GrantsApplied(lk, name, spec, roleIds, members, fixed)
    requires u in ManagersOf(spec, members, fixed)
    ensures BackedManager(lk, name, u)
  {
    var g := spec.owner;
    assert GroupSynced(lk, roleIds, g, members, fixed);
    var p := (ManageGrants, g);
    assert p in DesiredPairs(spec);
    assert (p.0, roleIds[p.1]) in RolePairs(DesiredPairs(spec), roleIds);
    InPrincipals(GroupUsers(g, members, fixed), u);
    var a := Assignment(ManageGrants, RoleRef(roleIds[g]));
    assert a in lk.warehouses[name] && ManagedSubject(lk, a.subject) && ActsFor(lk, a.subject, u);
  }

  lemma DocumentBacked(lk: Lakekeeper, t: Table, published: seq<Published>, roleIds: RoleIds,
                       admin: string, members: Members, fixed: Members)
    requires IsDocument(t, published, admin, members, fixed)
    requires forall p :: p in published ==> GrantsApplied(lk, p.name, p.spec, roleIds, members, fixed)
    ensures TableBacked(World(lk, Some(t))) && ManagersBacked(World(lk, Some(t)))
  {
    forall c, u | c in t && u in t[c].manage ensures BackedManager(lk, c, u) {
      var i :| 0 <= i < |published| && published[i].name == c;
      assert published[i] in published;
      ManagerIsBacked(lk, c, published[i].spec, roleIds, members, fixed, u);
    }
    forall c, v, u | c in t && Listed(t[c], v, u) ensures Backed(lk, c, v, u) {
      var i :| 0 <= i < |published| && published[i].name == c;
      assert published[i] in published;
      ListedIsBacked(lk, c, published[i].spec, roleIds, members, fixed, v, u);
    }
  }

  lemma DocumentAdmins(lk: Lakekeeper, t: Table, published: seq<Published>, roleIds: RoleIds,
                       admin: string, members: Members, fixed: Members)
    requires IsDocument(t, published, admin, members, fixed)
    requires GroupSynced(lk, roleIds, admin, members, fixed)
    requires Assignment(ProjectAdmin, RoleRef(roleIds[admin])) in lk.project
    ensures AllBacked(World(lk, Some(t)))
  {
    forall c, u | c in t && u in t[c].all ensures BackedAdmin(lk, u) {
      var i :| 0 <= i < |published| && published[i].name == c;
      InPrincipals(GroupUsers(admin, members, fixed), u);
      var a := Assignment(ProjectAdmin, RoleRef(roleIds[admin]));
      assert a in lk.project && ManagedSubject(lk, a.subject) && ActsFor(lk, a.subject, u);
    }
  }

  // ---------- exactness ----------

  /** Assignments that are neither a managed role's nor the sync client's own ownership. */
  function ForeignGrants(lk: Lakekeeper, name: string, own: Option<string>): set<Assignment>
    requires name in lk.warehouses
  {
    set a | a in lk.warehouses[name] && !ManagedSubject(lk, a.subject)
            && !(own.Some? && a == Assignment(Ownership, User(own.value)))
  }

  lemma ForeignExactly(lk: Lakekeeper, name: string, own: Option<string>)
    requires name in lk.warehouses
    ensures |ForeignGrants(lk, name, own)| > 0 <==> HasForeign(lk, name, own)
  {
    if HasForeign(lk, name, own) {
      var a :| a in lk.warehouses[name] && !ManagedSubject(lk, a.subject)
               && (a.relation == Ownership && a.subject.User? ==> own != Some(a.subject.principal));
      assert a in ForeignGrants(lk, name, own);
    } else {
      forall a ensures a !in ForeignGrants(lk, name, own) {}
      assert ForeignGrants(lk, name, own) == {};
    }
  }

  /** The warehouse holds the declared grants and no other grant of a managed role, and
      each declared group's role holds exactly its users. */
  ghost predicate GrantsExact(lk: Lakekeeper, name: string, spec: CatalogSpec, roleIds: RoleIds,
                              members: Members, fixed: Members) {
    && name in lk.warehouses
    && (forall g :: g in DeclaredGroups(spec) ==>
          g in roleIds && ManagedRole(lk, roleIds[g])
          && lk.roles[roleIds[g]].assignees == Principals(GroupUsers(g, members, fixed)))
    && ManagedGrants(lk, name) == RoleGrants(RolePairs(DesiredPairs(spec), roleIds))
  }

  lemma ExactIsApplied(lk: Lakekeeper, name: string, spec: CatalogSpec, roleIds: RoleIds,
                       members: Members, fixed: Members)
    requires GrantsExact(lk, name, spec, roleIds, members, fixed)
    ensures GrantsApplied(lk, name, spec, roleIds, members, fixed)
  {
  }

  /** A right a desired pair gives is one the table lists: `manage` gives none. */
  lemma PairIsListed(spec: CatalogSpec, p: (Relation, string), members: Members, fixed: Members, v: Verb, u: string)
    requires p in DesiredPairs(spec) && Gives(p.0, v) && u in GroupUsers(p.1, members, fixed)
    ensures u in ListedUsers(spec, members, fixed, v)
  {
    assert p.0 != ManageGrants;
    var i :| 0 <= i < |spec.grants| && p in GrantPairs(spec.grants[i]);
    ImplicationsAgree(spec.grants[i].verb, v);
  }

  lemma EffectiveIsListed(lk: Lakekeeper, name: string, spec: CatalogSpec, roleIds: RoleIds,
                          members: Members, fixed: Members, own: Option<string>, v: Verb, u: string)
    requires GrantsExact(lk, name, spec, roleIds, members, fixed)
    requires ForeignGrants(lk, name, own) == {}
    requires Some(Principal(u)) != own && Effective(lk, name, v, u)
    ensures u in ListedUsers(spec, members, fixed, v)
  {
    var a :| a in lk.warehouses[name] && Gives(a.relation, v) && ActsFor(lk, a.subject, u);
    assert a !in ForeignGrants(lk, name, own);
    assert ManagedSubject(lk, a.subject);
    assert a in ManagedGrants(lk, name);
    var q :| q in RolePairs(DesiredPairs(spec), roleIds) && a == Assignment(q.0, RoleRef(q.1));
    var p :| p in DesiredPairs(spec) && p.1 in roleIds && q == (p.0, roleIds[p.1]);
    assert p.1 in DeclaredGroups(spec) by { PairGroupDeclared(spec, p); }
    InPrincipals(GroupUsers(p.1, members, fixed), u);
    PairIsListed(spec, p, members, fixed, v, u);
  }

  lemma PairGroupDeclared(spec: CatalogSpec, p: (Relation, string))
    requires p in DesiredPairs(spec)
    ensures p.1 in DeclaredGroups(spec)
  {
  }

  lemma DocumentDrift(lk: Lakekeeper, t: Table, published: seq<Published>, admin: string, members: Members,
                      fixed: Members, own: Option<string>)
    requires IsDocument(t, published, admin, members, fixed)
    requires forall p :: p in published ==>
      p.name in lk.warehouses && p.foreign == |ForeignGrants(lk, p.name, own)|
    ensures forall c :: c in t ==> (t[c].drift <==> HasForeign(lk, c, own))
  {
    forall c | c in t ensures t[c].drift <==> HasForeign(lk, c, own) {
      var i :| 0 <= i < |published| && published[i].name == c;
      assert published[i] in published;
      ForeignExactly(lk, c, own);
    }
  }

  lemma EntryLists(p: Published, admin: string, members: Members, fixed: Members, v: Verb, u: string)
    ensures Listed(EntryOf(p, admin, members, fixed), v, u) <==>
            v in TABLE_VERBS && u in ListedUsers(p.spec, members, fixed, v)
  {
    assert v in TABLE_VERBS ==> ListsOf(p.spec, members, fixed)[v] == Sorted(ListedUsers(p.spec, members, fixed, v));
  }

  /** For an exact spec without foreign grants the lists are what Lakekeeper derives. */
  lemma ListedExactly(lk: Lakekeeper, name: string, spec: CatalogSpec, roleIds: RoleIds, members: Members,
                      fixed: Members, own: Option<string>, v: Verb, u: string)
    requires GrantsExact(lk, name, spec, roleIds, members, fixed) && ForeignGrants(lk, name, own) == {}
    requires Some(Principal(u)) != own
    ensures v in TABLE_VERBS && u in ListedUsers(spec, members, fixed, v) <==> Effective(lk, name, v, u)
  {
    if u in ListedUsers(spec, members, fixed, v) {
      ExactIsApplied(lk, name, spec, roleIds, members, fixed);
      ListedIsBacked(lk, name, spec, roleIds, members, fixed, v, u);
      BackedIsEffective(lk, name, v, u);
    }
    if Effective(lk, name, v, u) {
      EffectiveIsListed(lk, name, spec, roleIds, members, fixed, own, v, u);
      EffectiveVerb(lk, name, v, u);
    }
  }

  lemma BackedIsEffective(lk: Lakekeeper, name: string, v: Verb, u: string)
    requires Backed(lk, name, v, u)
    ensures Effective(lk, name, v, u)
  {
  }

  /** The published table answers exactly what Lakekeeper derives. */
  lemma DocumentExact(lk: Lakekeeper, t: Table, published: seq<Published>, roleIds: RoleIds,
                      admin: string, members: Members, fixed: Members, own: Option<string>)
    requires IsDocument(t, published, admin, members, fixed)
    requires forall p :: p in published ==>
      GrantsExact(lk, p.name, p.spec, roleIds, members, fixed) && p.foreign == |ForeignGrants(lk, p.name, own)|
    ensures TableExact(World(lk, Some(t)), own)
  {
    DocumentDrift(lk, t, published, admin, members, fixed, own);
    forall c, v, u | c in t && !t[c].drift && Some(Principal(u)) != own
      ensures Listed(t[c], v, u) <==> Effective(lk, c, v, u)
    {
      var i :| 0 <= i < |published| && published[i].name == c;
      var p := published[i];
      assert p in published;
      EntryLists(p, admin, members, fixed, v, u);
      ListedExactly(lk, c, p.spec, roleIds, members, fixed, own, v, u);
    }
  }

  /** Lakekeeper gives no verb but the table's four. */
  lemma EffectiveVerb(lk: Lakekeeper, c: string, v: Verb, u: string)
    requires Effective(lk, c, v, u)
    ensures v in TABLE_VERBS
  {
    var a :| a in lk.warehouses[c] && Gives(a.relation, v) && ActsFor(lk, a.subject, u);
    GivesTableVerb(a.relation, v);
  }

  lemma GivesTableVerb(r: Relation, v: Verb)
    requires Gives(r, v)
    ensures TableVerb(v)
  {
  }
}
