/** What the access sync reads and writes outside itself: Lakekeeper's roles, warehouse
    and project assignments, and the decision table published to OPA. The rules of who
    may do what are stated here once, on values. */
module AccessModel {
  import opened Text

  // ---------- Lakekeeper ----------

  type RoleId = nat

  datatype Relation =
    | Describe | Select | Modify | Create | ManageGrants | Ownership | ProjectAdmin
    | OtherRelation(text: string)

  datatype Subject = User(principal: string) | RoleRef(role: RoleId)

  datatype Assignment = Assignment(relation: Relation, subject: Subject)

  /** `managed` says the description starts with `stardelt group `; `others` are the
      role's assignments that are not `assignee` (its creator's ownership, say). */
  datatype Role = Role(name: string, managed: bool, assignees: set<string>, others: set<Assignment>)

  /** Warehouses are addressed by name: names are unique and nothing renames one. */
  datatype Lakekeeper = Lakekeeper(
    roles: map<RoleId, Role>,
    warehouses: map<string, set<Assignment>>,
    project: set<Assignment>)

  /** Role names are unique in a project. */
  predicate UniqueRoleNames(lk: Lakekeeper) {
    forall r, s | r in lk.roles && s in lk.roles :: lk.roles[r].name == lk.roles[s].name ==> r == s
  }

  predicate ManagedRole(lk: Lakekeeper, r: RoleId) {
    r in lk.roles && lk.roles[r].managed
  }

  predicate ManagedSubject(lk: Lakekeeper, s: Subject) {
    s.RoleRef? && ManagedRole(lk, s.role)
  }

  // ---------- verbs ----------

  datatype Verb = Browse | SelectVerb | Write | CreateVerb | Manage | OtherVerb(text: string)

  /** The four verbs the table has a list for. */
  predicate TableVerb(v: Verb) {
    v == Browse || v == SelectVerb || v == Write || v == CreateVerb
  }

  /** `VERB_RELATIONS`; an unknown verb has no relation. */
  function VerbRelation(v: Verb): Option<Relation> {
    match v
    case Browse => Some(Describe)
    case SelectVerb => Some(Select)
    case Write => Some(Modify)
    case CreateVerb => Some(Create)
    case Manage => Some(ManageGrants)
    case OtherVerb(_) => None
  }

  /** `IMPLIED_VERBS`: what a declared verb gives in the table. */
  function ImpliedVerbs(v: Verb): set<Verb> {
    match v
    case Browse => {Browse}
    case SelectVerb => {SelectVerb, Browse}
    case Write => {Write, SelectVerb, Browse}
    case CreateVerb => {CreateVerb, Browse}
    case _ => {}
  }

  /** Lakekeeper's own rule, on relations: `modify` implies `select` implies `describe`,
      `create` implies `describe`, `ownership` holds every data right, and
      `manage_grants` holds none. */
  predicate Gives(r: Relation, v: Verb)
    decreases if r == Modify then 2 else if r == Select || r == Create then 1 else 0
  {
    match r
    case Ownership => TableVerb(v)
    case Modify => v == Write || Gives(Select, v)
    case Select => v == SelectVerb || Gives(Describe, v)
    case Create => v == CreateVerb || Gives(Describe, v)
    case Describe => v == Browse
    case _ => false
  }

  /** The table's copy of the implications says the same as Lakekeeper's relations. */
  lemma ImplicationsAgree(declared: Verb, v: Verb)
    requires VerbRelation(declared).Some?
    ensures v in ImpliedVerbs(declared) <==> Gives(VerbRelation(declared).value, v)
  {
    match declared
    case Write => assert Gives(Modify, v) <==> v == Write || v == SelectVerb || v == Browse;
    case _ =>
  }

  // ---------- who may do what ----------

  /** How Lakekeeper spells a Trino user. */
  function Principal(user: string): string {
    "oidc~" + user
  }

  lemma PrincipalInjective(u: string, v: string)
    requires Principal(u) == Principal(v)
    ensures u == v
  {
    assert u == Principal(u)[5..];
    assert v == Principal(v)[5..];
  }

  predicate ActsFor(lk: Lakekeeper, s: Subject, user: string) {
    match s
    case User(p) => p == Principal(user)
    case RoleRef(r) => r in lk.roles && Principal(user) in lk.roles[r].assignees
  }

  /** What Lakekeeper answers: `user` may do `v` on the warehouse. */
  ghost predicate Effective(lk: Lakekeeper, warehouse: string, v: Verb, user: string) {
    warehouse in lk.warehouses &&
    exists a :: a in lk.warehouses[warehouse] && Gives(a.relation, v) && ActsFor(lk, a.subject, user)
  }

  /** The same right, held through a role this job manages. */
  ghost predicate Backed(lk: Lakekeeper, warehouse: string, v: Verb, user: string) {
    warehouse in lk.warehouses &&
    exists a :: a in lk.warehouses[warehouse] && Gives(a.relation, v)
      && ManagedSubject(lk, a.subject) && ActsFor(lk, a.subject, user)
  }

  /** `user` may manage the warehouse's grants, through a managed role. */
  ghost predicate BackedManager(lk: Lakekeeper, warehouse: string, user: string) {
    warehouse in lk.warehouses &&
    exists a :: a in lk.warehouses[warehouse] && a.relation == ManageGrants
      && ManagedSubject(lk, a.subject) && ActsFor(lk, a.subject, user)
  }

  /** `user` is a project administrator through a managed role. */
  ghost predicate BackedAdmin(lk: Lakekeeper, user: string) {
    exists a :: a in lk.project && a.relation == ProjectAdmin
      && ManagedSubject(lk, a.subject) && ActsFor(lk, a.subject, user)
  }

  // ---------- the decision table ----------

  datatype Entry = Entry(drift: bool, all: seq<string>, lists: map<Verb, seq<string>>, manage: seq<string>)

  type Table = map<string, Entry>

  predicate Listed(e: Entry, v: Verb, user: string) {
    v in e.lists && user in e.lists[v]
  }

  datatype World = World(lk: Lakekeeper, table: Option<Table>)

  /** Every user in a verb list of the published table holds the verb in Lakekeeper. */
  ghost predicate TableSound(w: World) {
    w.table.Some? ==>
      forall c, v, u :: c in w.table.value && Listed(w.table.value[c], v, u) ==> Effective(w.lk, c, v, u)
  }

  ghost predicate TableBacked(w: World) {
    w.table.Some? ==>
      forall c, v, u :: c in w.table.value && Listed(w.table.value[c], v, u) ==> Backed(w.lk, c, v, u)
  }

  /** Every user in a `manage` list holds `manage_grants`: a subset of those who do. */
  ghost predicate ManagersBacked(w: World) {
    w.table.Some? ==>
      forall c, u :: c in w.table.value && u in w.table.value[c].manage ==> BackedManager(w.lk, c, u)
  }

  /** Every user in an `all` list is a project administrator. */
  ghost predicate AllBacked(w: World) {
    w.table.Some? ==>
      forall c, u :: c in w.table.value && u in w.table.value[c].all ==> BackedAdmin(w.lk, u)
  }

  /** Somebody the job does not manage holds an assignment on the warehouse; the ownership
      of the job's own client does not count. */
  ghost predicate HasForeign(lk: Lakekeeper, warehouse: string, own: Option<string>) {
    warehouse in lk.warehouses &&
    exists a :: a in lk.warehouses[warehouse] && !ManagedSubject(lk, a.subject)
      && (a.relation == Ownership && a.subject.User? ==> own != Some(a.subject.principal))
  }

  /** The table marks exactly the catalogs with foreign assignments as drifted, and answers
      exactly what Lakekeeper would for every other and every user but the sync's own client. */
  ghost predicate TableExact(w: World, own: Option<string>) {
    && w.table.Some?
    && (forall c :: c in w.table.value ==> (w.table.value[c].drift <==> HasForeign(w.lk, c, own)))
    && (forall c, v, u :: c in w.table.value && !w.table.value[c].drift && Some(Principal(u)) != own ==>
      (Listed(w.table.value[c], v, u) <==> Effective(w.lk, c, v, u)))
  }

  lemma BackedIsSound(w: World)
    requires TableBacked(w)
    ensures TableSound(w)
  {
    if w.table.Some? {
      forall c, v, u | c in w.table.value && Listed(w.table.value[c], v, u)
        ensures Effective(w.lk, c, v, u)
      {
        assert Backed(w.lk, c, v, u);
      }
    }
  }

  // ---------- steps ----------

  /** No right held through a managed role goes away, except assignees of the roles in
      `roles` and grants on the warehouses in `warehouses`. */
  predicate Keeps(a: Lakekeeper, b: Lakekeeper, roles: set<RoleId>, warehouses: set<string>) {
    && (forall r | r in a.roles :: a.roles[r].managed ==>
          r in b.roles && b.roles[r].managed && b.roles[r].name == a.roles[r].name
          && (r !in roles ==> a.roles[r].assignees <= b.roles[r].assignees))
    && (forall c | c in a.warehouses ::
          c in b.warehouses
          && (c !in warehouses ==>
                forall g | g in a.warehouses[c] :: ManagedSubject(a, g.subject) ==> g in b.warehouses[c]))
    && (forall g | g in a.project :: ManagedSubject(a, g.subject) ==> g in b.project)
  }

  /** No right held through a managed role goes away. */
  predicate Grows(a: Lakekeeper, b: Lakekeeper) {
    Keeps(a, b, {}, {})
  }

  lemma KeepsTransitive(a: Lakekeeper, b: Lakekeeper, c: Lakekeeper,
                        r: set<RoleId>, w: set<string>, r': set<RoleId>, w': set<string>)
    requires Keeps(a, b, r, w) && Keeps(b, c, r', w')
    ensures Keeps(a, c, r + r', w + w')
  {
  }

  lemma GrowsKeepsBacked(a: Lakekeeper, b: Lakekeeper, c: string, v: Verb, u: string)
    requires Grows(a, b) && Backed(a, c, v, u)
    ensures Backed(b, c, v, u)
  {
    var g :| g in a.warehouses[c] && Gives(g.relation, v) && ManagedSubject(a, g.subject) && ActsFor(a, g.subject, u);
    assert g in b.warehouses[c];
  }

  lemma GrowsKeepsManager(a: Lakekeeper, b: Lakekeeper, c: string, u: string)
    requires Grows(a, b) && BackedManager(a, c, u)
    ensures BackedManager(b, c, u)
  {
    var g :| g in a.warehouses[c] && g.relation == ManageGrants && ManagedSubject(a, g.subject)
             && ActsFor(a, g.subject, u);
    assert g in b.warehouses[c];
  }

  lemma GrowsKeepsAdmin(a: Lakekeeper, b: Lakekeeper, u: string)
    requires Grows(a, b) && BackedAdmin(a, u)
    ensures BackedAdmin(b, u)
  {
    var g :| g in a.project && g.relation == ProjectAdmin && ManagedSubject(a, g.subject) && ActsFor(a, g.subject, u);
    assert g in b.project;
  }

  /** What any other client of Lakekeeper and OPA may do between two calls of the job:
      anything, except take away a right held through a managed role or publish a table.
      OPA may lose the document. */
  predicate Rely(a: World, b: World) {
    Grows(a.lk, b.lk) && UniqueRoleNames(b.lk) && (b.table == a.table || b.table == None)
  }

  /** What one call of the job may change: never an assignment whose subject is not a
      managed role, never an unmanaged role, never a role's non-`assignee` entries. */
  ghost predicate ForeignKept(a: Lakekeeper, b: Lakekeeper, client: string) {
    && (forall r :: r in a.roles ==>
          r in b.roles && b.roles[r].name == a.roles[r].name && b.roles[r].managed == a.roles[r].managed
          && b.roles[r].others == a.roles[r].others
          && (!a.roles[r].managed ==> b.roles[r].assignees == a.roles[r].assignees))
    && (forall r :: r in b.roles && r !in a.roles ==> b.roles[r].managed)
    && (forall c, g: Assignment :: c in a.warehouses && !ManagedSubject(a, g.subject) ==>
          c in b.warehouses && (g in b.warehouses[c] <==> g in a.warehouses[c]))
    && (forall c :: c in b.warehouses && c !in a.warehouses ==>
          b.warehouses[c] == CreatorGrants(client))
    && (forall g: Assignment :: !ManagedSubject(a, g.subject) ==> (g in b.project <==> g in a.project))
    && a.project <= b.project
  }

  datatype Actor = Job | Others

  /** One observable state. `dropLost`: the document OPA holds is one a DELETE was asked
      for and did not remove. `adminLost`: that document was published by a tick whose
      sync of the admin role failed. */
  datatype Moment = Moment(actor: Actor, world: World, dropLost: bool, adminLost: bool)

  ghost predicate Acceptable(m: Moment) {
    !m.dropLost ==>
      TableBacked(m.world) && ManagersBacked(m.world) && (!m.adminLost ==> AllBacked(m.world))
  }

  ghost predicate Step(m: Moment, n: Moment, client: string) {
    match n.actor
    case Others => Rely(m.world, n.world)
    case Job => ForeignKept(m.world.lk, n.world.lk, client)
  }

  /** A run: a non-empty sequence of observable states, each acceptable, each reached
      from the one before by one call of the job or one move of somebody else. */
  ghost predicate Run(h: seq<Moment>, client: string) {
    && h != []
    && (forall i :: 0 <= i < |h| ==> Acceptable(h[i]))
    && (forall i :: 0 < i < |h| ==> Step(h[i - 1], h[i], client))
  }

  /** An assignment's subject is a person, or a role that is not ours. */
  predicate ForeignSubject(lk: Lakekeeper, s: Subject) {
    s.User? || (s.role in lk.roles && !lk.roles[s.role].managed)
  }

  /** Nothing that is not ours was added or taken away: assignments of foreign subjects,
      unmanaged roles, and the entries of any role that are not `assignee`. */
  ghost predicate ForeignConserved(a: Lakekeeper, b: Lakekeeper) {
    && (forall r :: r in a.roles ==>
          r in b.roles && b.roles[r].others == a.roles[r].others && b.roles[r].managed == a.roles[r].managed
          && (!a.roles[r].managed ==> b.roles[r] == a.roles[r]))
    && (forall r :: r in b.roles && !b.roles[r].managed ==> r in a.roles)
    && (forall c, g: Assignment :: c in a.warehouses && ForeignSubject(a, g.subject) ==>
          c in b.warehouses && (g in b.warehouses[c] <==> g in a.warehouses[c]))
    && (forall g: Assignment :: ForeignSubject(a, g.subject) ==> (g in b.project <==> g in a.project))
  }

  /** Over any stretch of a run in which only the job acts, whatever fails in it, nothing
      that is not ours changes. */
  lemma {:induction false} JobConservesForeign(h: seq<Moment>, client: string, i: nat, j: nat)
    requires Run(h, client) && i <= j < |h|
    requires forall k :: i < k <= j ==> h[k].actor == Job
    ensures ForeignConserved(h[i].world.lk, h[j].world.lk)
    decreases j
  {
    if i < j {
      JobConservesForeign(h, client, i, j - 1);
      assert Step(h[j - 1], h[j], client);
      ConservedOnce(h[i].world.lk, h[j - 1].world.lk, h[j].world.lk, client);
    }
  }

  lemma ConservedOnce(a: Lakekeeper, b: Lakekeeper, c: Lakekeeper, client: string)
    requires ForeignConserved(a, b) && ForeignKept(b, c, client)
    ensures ForeignConserved(a, c)
  {
    forall w, g: Assignment | w in a.warehouses && ForeignSubject(a, g.subject)
      ensures w in c.warehouses && (g in c.warehouses[w] <==> g in a.warehouses[w])
    {
      assert !ManagedSubject(b, g.subject);
    }
    forall g: Assignment | ForeignSubject(a, g.subject) ensures g in c.project <==> g in a.project {
      assert !ManagedSubject(b, g.subject);
    }
  }

  lemma RunExtends(h: seq<Moment>, m: Moment, client: string)
    requires Run(h, client) && Acceptable(m) && Step(h[|h| - 1], m, client)
    ensures Run(h + [m], client)
  {
  }

  lemma GrowingKeepsAcceptable(m: Moment, n: Moment)
    requires Acceptable(m) && Grows(m.world.lk, n.world.lk)
    requires n.world.table == m.world.table || n.world.table == None
    requires n.dropLost == m.dropLost && n.adminLost == m.adminLost
    ensures Acceptable(n)
  {
    if !m.dropLost && n.world.table.Some? {
      var t := n.world.table.value;
      forall c, v, u | c in t && Listed(t[c], v, u) ensures Backed(n.world.lk, c, v, u) {
        GrowsKeepsBacked(m.world.lk, n.world.lk, c, v, u);
      }
      forall c, u | c in t && u in t[c].manage ensures BackedManager(n.world.lk, c, u) {
        GrowsKeepsManager(m.world.lk, n.world.lk, c, u);
      }
      if !m.adminLost {
        forall c, u | c in t && u in t[c].all ensures BackedAdmin(n.world.lk, u) {
          GrowsKeepsAdmin(m.world.lk, n.world.lk, u);
        }
      }
    }
  }

  // ---------- the writes, on values ----------

  function WithAssignees(lk: Lakekeeper, r: RoleId, assignees: set<string>): Lakekeeper
    requires r in lk.roles
  {
    lk.(roles := lk.roles[r := lk.roles[r].(assignees := assignees)])
  }

  lemma SameAssignees(lk: Lakekeeper, r: RoleId)
    requires r in lk.roles
    ensures WithAssignees(lk, r, lk.roles[r].assignees) == lk
  {
    assert lk.roles[r := lk.roles[r]] == lk.roles;
  }

  function WithGrants(lk: Lakekeeper, c: string, assignments: set<Assignment>): Lakekeeper {
    lk.(warehouses := lk.warehouses[c := assignments])
  }

  /** The grants a list of `(relation, role)` pairs stands for. */
  function RoleGrants(pairs: set<(Relation, RoleId)>): set<Assignment> {
    set p | p in pairs :: Assignment(p.0, RoleRef(p.1))
  }

  /** What creating a warehouse leaves on it: the creator's ownership. */
  function CreatorGrants(client: string): set<Assignment> {
    {Assignment(Ownership, User(client))}
  }

  /** A role as Lakekeeper stores it when this client creates it. */
  function NewRole(name: string, client: string): Role {
    Role(name, true, {}, CreatorGrants(client))
  }

  lemma RoleStep(lk: Lakekeeper, id: RoleId, name: string, client: string)
    requires UniqueRoleNames(lk) && id !in lk.roles
    requires forall r :: r in lk.roles ==> lk.roles[r].name != name
    ensures var lk' := lk.(roles := lk.roles[id := NewRole(name, client)]);
      UniqueRoleNames(lk') && Grows(lk, lk') && ForeignKept(lk, lk', client)
  {
  }

  lemma AssigneesStep(lk: Lakekeeper, r: RoleId, assignees: set<string>, client: string)
    requires UniqueRoleNames(lk) && ManagedRole(lk, r)
    ensures var lk' := WithAssignees(lk, r, assignees);
      UniqueRoleNames(lk') && Keeps(lk, lk', {r}, {}) && ForeignKept(lk, lk', client)
      && (lk.roles[r].assignees <= assignees ==> Grows(lk, lk'))
  {
  }

  /** What a difference of assignees leaves that was computed on `a` and written on `b`. */
  lemma AssigneesPosted(a: Lakekeeper, b: Lakekeeper, r: RoleId, writes: set<string>, deletes: set<string>,
                        client: string)
    requires UniqueRoleNames(b) && Grows(a, b) && ManagedRole(a, r)
    ensures ManagedRole(b, r)
    ensures var next := WithAssignees(b, r, (b.roles[r].assignees - deletes) + writes);
      && UniqueRoleNames(next) && ForeignKept(b, next, client) && (deletes == {} ==> Grows(b, next))
      && Keeps(a, next, if deletes == {} then {} else {r}, {})
      && (a.roles[r].assignees - deletes) + writes <= next.roles[r].assignees
  {
    AssigneesStep(b, r, (b.roles[r].assignees - deletes) + writes, client);
    KeepsTransitive(a, b, WithAssignees(b, r, (b.roles[r].assignees - deletes) + writes), {}, {},
                    if deletes == {} then {} else {r}, {});
  }

  /** The subjects of role grants on managed roles are managed. */
  lemma RoleGrantsManaged(lk: Lakekeeper, pairs: set<(Relation, RoleId)>)
    requires forall p :: p in pairs ==> ManagedRole(lk, p.1)
    ensures forall g :: g in RoleGrants(pairs) ==> ManagedSubject(lk, g.subject)
  {
  }

  lemma GrantsStep(lk: Lakekeeper, c: string, writes: set<Assignment>, deletes: set<Assignment>, client: string)
    requires UniqueRoleNames(lk) && c in lk.warehouses
    requires forall g :: g in writes + deletes ==> ManagedSubject(lk, g.subject)
    ensures var lk' := WithGrants(lk, c, (lk.warehouses[c] - deletes) + writes);
      UniqueRoleNames(lk') && Keeps(lk, lk', {}, {c}) && ForeignKept(lk, lk', client)
      && (deletes == {} ==> Grows(lk, lk'))
  {
  }

  lemma AdminStep(lk: Lakekeeper, r: RoleId, client: string)
    requires UniqueRoleNames(lk) && ManagedRole(lk, r)
    ensures var lk' := lk.(project := lk.project + {Assignment(ProjectAdmin, RoleRef(r))});
      UniqueRoleNames(lk') && Grows(lk, lk') && ForeignKept(lk, lk', client)
  {
  }

  lemma WarehouseStep(lk: Lakekeeper, c: string, client: string)
    requires UniqueRoleNames(lk) && c !in lk.warehouses
    ensures var lk' := WithGrants(lk, c, CreatorGrants(client));
      UniqueRoleNames(lk') && Grows(lk, lk') && ForeignKept(lk, lk', client)
  {
  }

  /** A call that changed nothing. */
  lemma Unchanged(lk: Lakekeeper, client: string)
    ensures Grows(lk, lk) && ForeignKept(lk, lk, client)
  {
  }

  /** The assignments on a warehouse whose subject is a managed role. */
  function ManagedGrants(lk: Lakekeeper, c: string): set<Assignment>
    requires c in lk.warehouses
  {
    set g | g in lk.warehouses[c] && ManagedSubject(lk, g.subject)
  }

  lemma ManagedGrantsKept(a: Lakekeeper, b: Lakekeeper, c: string)
    requires Grows(a, b) && c in a.warehouses
    ensures c in b.warehouses && ManagedGrants(a, c) <= ManagedGrants(b, c)
  {
  }

  lemma ManagedAfter(a: Lakekeeper, b: Lakekeeper, pairs: set<(Relation, RoleId)>)
    requires Grows(a, b) && forall p :: p in pairs ==> ManagedRole(a, p.1)
    ensures forall p :: p in pairs ==> ManagedRole(b, p.1)
  {
  }

  /** What a difference of grants leaves that was computed on `a` and written on `b`. */
  lemma GrantsPosted(a: Lakekeeper, b: Lakekeeper, c: string, writes: set<(Relation, RoleId)>,
                     deletes: set<(Relation, RoleId)>, client: string)
    requires UniqueRoleNames(b) && Grows(a, b) && c in a.warehouses
    requires forall p :: p in writes + deletes ==> ManagedRole(a, p.1)
    ensures c in b.warehouses
    ensures var next := WithGrants(b, c, (b.warehouses[c] - RoleGrants(deletes)) + RoleGrants(writes));
      && UniqueRoleNames(next) && ForeignKept(b, next, client) && (deletes == {} ==> Grows(b, next))
      && Keeps(a, next, {}, if deletes == {} then {} else {c})
      && RoleGrants(writes) <= next.warehouses[c]
      && ManagedGrants(a, c) - RoleGrants(deletes) <= next.warehouses[c]
  {
    var next := WithGrants(b, c, (b.warehouses[c] - RoleGrants(deletes)) + RoleGrants(writes));
    ManagedAfter(a, b, writes);
    ManagedAfter(a, b, deletes);
    RoleGrantsManaged(b, writes);
    RoleGrantsManaged(b, deletes);
    GrantsStep(b, c, RoleGrants(writes), RoleGrants(deletes), client);
    KeepsTransitive(a, b, next, {}, {}, {}, if deletes == {} then {} else {c});
    ManagedGrantsKept(a, b, c);
  }
}
