/** The calls of one access-sync tick: each brings one role, one warehouse or the table
    in line, and drops the published table before it takes anything away. */
module AccessJob {
  import opened Text
  import opened AccessModel
  import opened AccessTable
  import opened LakekeeperApi

  /** A `SyncProblem`: `verdict` says the spec asks for something the sync cannot do. */
  datatype Problem = Problem(reason: string, message: string, verdict: bool)

  function RoleConflict(group: string): Problem {
    Problem("RoleConflict", "Lakekeeper role `" + group + "` exists but is not managed by the sync", true)
  }

  function RoleAppeared(group: string): Problem {
    Problem("RoleConflict", "Lakekeeper role `" + group + "` appeared concurrently and is not managed", true)
  }

  function RoleCreateFailed(group: string): Problem {
    Problem("RoleCreateFailed", "Lakekeeper refused the role for `" + group + "`", false)
  }

  const ASSIGNEES_FAILED := Problem("AssigneesFailed", "Lakekeeper refused the assignees of a role", false)
  const GRANTS_FAILED := Problem("GrantsFailed", "Lakekeeper refused the grants of a warehouse", false)

  /** A value, a problem of one group or warehouse, or the end of the tick. */
  datatype Result<+T> = Ok(value: T) | Err(problem: Problem) | Ended

  predicate IsRole(lk: Lakekeeper, group: string, r: RoleId) {
    r in lk.roles && lk.roles[r].name == group
  }

  /** What a role listing of this tick still says about the managed roles. */
  ghost predicate ListingHolds(listing: seq<RoleEntry>, lk: Lakekeeper) {
    forall e :: e in listing && e.managed ==> ManagedRole(lk, e.id) && lk.roles[e.id].name == e.name
  }

  /** A role of this name exists and is not ours. */
  ghost predicate Conflicting(lk: Lakekeeper, group: string) {
    exists r :: IsRole(lk, group, r) && !lk.roles[r].managed
  }

  /** The listing is the present state, and complete for roles named `group`. */
  ghost predicate ListingCurrent(listing: seq<RoleEntry>, lk: Lakekeeper, group: string) {
    && (forall e :: e in listing ==>
          e.id in lk.roles && lk.roles[e.id].name == e.name && lk.roles[e.id].managed == e.managed)
    && (forall r :: IsRole(lk, group, r) ==> RoleEntry(r, group, lk.roles[r].managed) in listing)
  }

  ghost predicate NameListed(listing: seq<RoleEntry>, group: string) {
    exists e :: e in listing && e.name == group
  }

  /** The pairs of the role grants in a list of assignments. */
  function CurrentPairs(assignments: set<Assignment>): set<(Relation, RoleId)> {
    set a | a in assignments && a.subject.RoleRef? :: (a.relation, a.subject.role)
  }

  function Undeclared(current: set<(Relation, RoleId)>, managed: set<RoleId>, declared: set<(Relation, RoleId)>)
    : set<(Relation, RoleId)>
  {
    (set p | p in current && p.1 in managed) - declared
  }

  /** The assignments a tick counts as drift. */
  function CountedForeign(assignments: set<Assignment>, managed: set<RoleId>, own: Option<string>): set<Assignment> {
    set a | a in assignments && !(a.subject.RoleRef? && a.subject.role in managed)
            && !(own.Some? && a == Assignment(Ownership, User(own.value)))
  }

  /** The managed grants of the warehouse are exactly these. */
  ghost predicate GrantsAre(lk: Lakekeeper, c: string, declared: set<(Relation, RoleId)>) {
    c in lk.warehouses && ManagedGrants(lk, c) == RoleGrants(declared)
  }

  lemma DifferenceApplied(current: set<string>, held: set<string>, desired: set<string>)
    requires current <= held
    ensures desired <= (held - (current - desired)) + (desired - current)
    ensures held == current ==> (held - (current - desired)) + (desired - current) == desired
  {
  }

  /** What a warehouse holds after the declared difference was written. */
  function Converged(assignments: set<Assignment>, managed: set<RoleId>, declared: set<(Relation, RoleId)>)
    : set<Assignment>
  {
    (assignments - RoleGrants(Undeclared(CurrentPairs(assignments), managed, declared)))
    + RoleGrants(declared - CurrentPairs(assignments))
  }

  lemma InRoleGrants(pairs: set<(Relation, RoleId)>, a: Assignment)
    ensures a in RoleGrants(pairs) <==> a.subject.RoleRef? && (a.relation, a.subject.role) in pairs
  {
    if a in RoleGrants(pairs) {
      var p :| p in pairs && a == Assignment(p.0, RoleRef(p.1));
      assert p == (a.relation, a.subject.role);
    } else if a.subject.RoleRef? {
      var p := (a.relation, a.subject.role);
      assert a == Assignment(p.0, RoleRef(p.1));
    }
  }

  lemma InCurrentPairs(assignments: set<Assignment>, p: (Relation, RoleId))
    ensures p in CurrentPairs(assignments) <==> Assignment(p.0, RoleRef(p.1)) in assignments
  {
    var a := Assignment(p.0, RoleRef(p.1));
    if a in assignments { assert (a.relation, a.subject.role) in CurrentPairs(assignments); }
  }

  lemma InConverged(assignments: set<Assignment>, managed: set<RoleId>, declared: set<(Relation, RoleId)>,
                    a: Assignment)
    ensures a in Converged(assignments, managed, declared) <==>
      if a.subject.RoleRef? && (a.subject.role in managed || (a.relation, a.subject.role) in declared)
      then (a.relation, a.subject.role) in declared
      else a in assignments
  {
    var current := CurrentPairs(assignments);
    InRoleGrants(Undeclared(current, managed, declared), a);
    InRoleGrants(declared - current, a);
    if a.subject.RoleRef? { InCurrentPairs(assignments, (a.relation, a.subject.role)); }
  }

  /** The difference leaves exactly the declared grants of managed roles, and every
      foreign assignment as it was. */
  lemma ConvergedIsExact(lk: Lakekeeper, c: string, managed: set<RoleId>, declared: set<(Relation, RoleId)>,
                         own: Option<string>)
    requires c in lk.warehouses && forall r :: r in managed <==> ManagedRole(lk, r)
    requires forall p :: p in declared ==> p.1 in managed
    ensures var lk' := WithGrants(lk, c, Converged(lk.warehouses[c], managed, declared));
      ManagedGrants(lk', c) == RoleGrants(declared) && ForeignGrants(lk', c, own) == ForeignGrants(lk, c, own)
  {
    var lk' := WithGrants(lk, c, Converged(lk.warehouses[c], managed, declared));
    forall a ensures a in ManagedGrants(lk', c) <==> a in RoleGrants(declared) {
      InConverged(lk.warehouses[c], managed, declared, a);
      InRoleGrants(declared, a);
    }
    forall a ensures a in ForeignGrants(lk', c, own) <==> a in ForeignGrants(lk, c, own) {
      InConverged(lk.warehouses[c], managed, declared, a);
    }
  }

  /** When the managed grants are the declared ones there is nothing to write. */
  lemma ConvergedAlready(lk: Lakekeeper, c: string, managed: set<RoleId>, declared: set<(Relation, RoleId)>)
    requires c in lk.warehouses && forall r :: r in managed <==> ManagedRole(lk, r)
    requires forall p :: p in declared ==> p.1 in managed
    requires ManagedGrants(lk, c) == RoleGrants(declared)
    ensures NoDifference(lk.warehouses[c], managed, declared)
  {
    forall p: (Relation, RoleId) ensures p.1 in managed ==> (p in CurrentPairs(lk.warehouses[c]) <==> p in declared) {
      var a := Assignment(p.0, RoleRef(p.1));
      InCurrentPairs(lk.warehouses[c], p);
      InRoleGrants(declared, a);
      assert p.1 in managed ==> (a in ManagedGrants(lk, c) <==> a in lk.warehouses[c]);
    }
  }

  /** Neither side has what the other lacks. */
  predicate NoDifference(assignments: set<Assignment>, managed: set<RoleId>, declared: set<(Relation, RoleId)>) {
    declared - CurrentPairs(assignments) == {} && Undeclared(CurrentPairs(assignments), managed, declared) == {}
  }

  lemma SameGrants(lk: Lakekeeper, c: string)
    requires c in lk.warehouses
    ensures WithGrants(lk, c, lk.warehouses[c]) == lk
  {
    assert lk.warehouses[c := lk.warehouses[c]] == lk.warehouses;
  }

  /** With nothing to write, the declared grants are all there. */
  lemma NothingToWrite(assignments: set<Assignment>, managed: set<RoleId>, declared: set<(Relation, RoleId)>)
    requires NoDifference(assignments, managed, declared)
    ensures Converged(assignments, managed, declared) == assignments
    ensures RoleGrants(declared) <= assignments
  {
    forall a ensures a in RoleGrants(declared) ==> a in assignments {
      InRoleGrants(declared, a);
      if a in RoleGrants(declared) { InCurrentPairs(assignments, (a.relation, a.subject.role)); }
    }
  }

  /** Whatever the others added meanwhile, an accepted write leaves the declared grants. */
  lemma DeclaredCovered(lk: Lakekeeper, c: string, read: set<Assignment>, managed: set<RoleId>,
                        declared: set<(Relation, RoleId)>, after: set<Assignment>)
    requires c in lk.warehouses && forall p :: p in declared ==> ManagedRole(lk, p.1)
    requires forall p :: p in declared && Assignment(p.0, RoleRef(p.1)) in read ==>
      Assignment(p.0, RoleRef(p.1)) in lk.warehouses[c]
    requires RoleGrants(declared - CurrentPairs(read)) <= after
    requires ManagedGrants(lk, c) - RoleGrants(Undeclared(CurrentPairs(read), managed, declared)) <= after
    ensures RoleGrants(declared) <= after
  {
    forall a | a in RoleGrants(declared) ensures a in after {
      InRoleGrants(declared, a);
      var p := (a.relation, a.subject.role);
      InCurrentPairs(read, p);
      InRoleGrants(declared - CurrentPairs(read), a);
      InRoleGrants(Undeclared(CurrentPairs(read), managed, declared), a);
    }
  }

  lemma DifferenceManaged(a: Lakekeeper, b: Lakekeeper, current: set<(Relation, RoleId)>, managed: set<RoleId>,
                          declared: set<(Relation, RoleId)>)
    requires Grows(a, b) && forall r :: r in managed ==> ManagedRole(a, r)
    requires forall p :: p in declared ==> p.1 in managed
    ensures forall p :: p in (declared - current) + Undeclared(current, managed, declared) ==> ManagedRole(b, p.1)
  {
    forall r | r in managed ensures ManagedRole(b, r) {
      assert ManagedRole(a, r);
    }
  }

  lemma GrantsSurvive(a: Lakekeeper, b: Lakekeeper, c: string, managed: set<RoleId>, declared: set<(Relation, RoleId)>)
    requires Grows(a, b) && c in a.warehouses && forall r :: r in managed ==> ManagedRole(a, r)
    requires forall p :: p in declared ==> p.1 in managed
    ensures c in b.warehouses && forall p :: p in declared ==> ManagedRole(b, p.1)
    ensures forall p :: p in declared && Assignment(p.0, RoleRef(p.1)) in a.warehouses[c] ==>
      Assignment(p.0, RoleRef(p.1)) in b.warehouses[c]
  {
    forall p | p in declared
      ensures ManagedRole(b, p.1)
      ensures Assignment(p.0, RoleRef(p.1)) in a.warehouses[c] ==> Assignment(p.0, RoleRef(p.1)) in b.warehouses[c]
    {
      assert ManagedRole(a, p.1);
      assert ManagedSubject(a, Assignment(p.0, RoleRef(p.1)).subject);
    }
  }

  lemma CountedIsForeign(lk: Lakekeeper, c: string, managed: set<RoleId>, own: Option<string>)
    requires c in lk.warehouses && forall r :: r in managed <==> ManagedRole(lk, r)
    ensures CountedForeign(lk.warehouses[c], managed, own) == ForeignGrants(lk, c, own)
  {
  }

  /** The calls went on with a PUT of the table. */
  predicate PutOnly(a: seq<Call>, b: seq<Call>) {
    b != [] && b[..|b| - 1] == a && b[|b| - 1].PutTable?
  }

  datatype GrantCounts = GrantCounts(written: nat, removed: nat, foreign: nat)

  /** `managed`: the managed roles, all of them when nobody else writes; and the ids a tick
      found are among them. */
  ghost predicate RolesKnownIn(lk: Lakekeeper, quiet: bool, roleIds: RoleIds, managed: set<RoleId>) {
    && (forall r :: r in managed ==> ManagedRole(lk, r))
    && (forall g :: g in roleIds ==> roleIds[g] in managed)
    && (quiet ==> forall r :: ManagedRole(lk, r) ==> r in managed)
  }

  lemma RolesStayKnown(a: Lakekeeper, b: Lakekeeper, quiet: bool, roleIds: RoleIds, managed: set<RoleId>,
                       names: set<string>)
    requires RolesKnownIn(a, quiet, roleIds, managed) && Keeps(a, b, {}, names)
    requires quiet ==> b.roles == a.roles
    ensures RolesKnownIn(b, quiet, roleIds, managed)
  {
  }

  class Job {
    const remote: Remote
    /** The subject of this client's token, when it is readable. */
    const own: Option<string>
    /** The table was dropped, or a drop was tried, in this tick. */
    var tableDropped: bool

    /** What holds between two ticks. */
    ghost predicate Connected()
      reads this, remote
    {
      && remote.Valid()
      && (own.Some? ==> own.value == remote.client)
    }

    /** What holds within a tick, until the table is published again. */
    ghost predicate Valid()
      reads this, remote
    {
      && Connected()
      && (tableDropped ==> remote.table == None || remote.dropLost)
    }

    constructor (remote: Remote, own: Option<string>)
      requires remote.Valid() && (own.Some? ==> own.value == remote.client)
      ensures Valid() && this.remote == remote && this.own == own && !tableDropped
    {
      this.remote, this.own, tableDropped := remote, own, false;
    }

    /** A tick starts with nothing dropped. */
    method Start()
      requires Connected()
      modifies this
      ensures Valid() && !tableDropped
    {
      tableDropped := false;
    }

    /** The services as they were: no call of the job asked for a change. */
    twostate predicate Untouched()
      reads this, remote
    {
      remote.lk == old(remote.lk) && remote.calls == old(remote.calls)
      && remote.table == old(remote.table) && tableDropped == old(tableDropped)
    }

    /** Lakekeeper as it was, and no call of this tick so far. */
    twostate predicate AskedNothing()
      reads this, remote
    {
      remote.lk == old(remote.lk) && !tableDropped && remote.calls == old(remote.calls)
    }

    /** Lakekeeper as it was, and no call but the PUT of the table. */
    twostate predicate AskedOnlyToPut()
      reads this, remote
    {
      && remote.lk == old(remote.lk) && !tableDropped
      && (remote.calls == old(remote.calls) || PutOnly(old(remote.calls), remote.calls))
    }

    /** `invalidate_access_table`: afterwards no table is left, or its DELETE is known to
        have failed. */
    method InvalidateAccessTable() returns (gone: bool)
      requires Valid()
      modifies this, remote
      ensures Valid() && tableDropped && old(remote.history) <= remote.history
      ensures remote.table == None || remote.dropLost
      ensures Grows(old(remote.lk), remote.lk)
      ensures remote.quiet ==>
        remote.lk == old(remote.lk) && (remote.table == None || remote.table == old(remote.table))
      ensures old(tableDropped) ==> gone && remote.calls == old(remote.calls)
      ensures !old(tableDropped) ==> remote.calls == old(remote.calls) + [DeletedTable(gone)]
      ensures old(remote.faults) <= remote.faults
    {
      if tableDropped { return true; }
      var answer := remote.DeleteTable();
      tableDropped := true;
      gone := answer.Accepted?;
    }

    /** `ensure_role`: the id of the managed role of this name, created when missing. */
    method EnsureRole(group: string, listing: seq<RoleEntry>) returns (result: Result<RoleId>)
      requires Valid() && ListingHolds(listing, remote.lk)
      requires remote.quiet ==> ListingCurrent(listing, remote.lk, group)
      modifies remote
      ensures Valid() && old(remote.history) <= remote.history
      ensures Grows(old(remote.lk), remote.lk)
      ensures result.Ok? ==> ManagedRole(remote.lk, result.value) && IsRole(remote.lk, group, result.value)
      ensures NameListed(listing, group) ==> Untouched() && !result.Ended?
      ensures remote.quiet && !NameListed(listing, group) && result.Ok? ==>
        result.value !in old(remote.lk).roles &&
        remote.lk == old(remote.lk).(roles := old(remote.lk).roles[result.value := NewRole(group, remote.client)])
      ensures remote.quiet && result.Err? ==> remote.lk == old(remote.lk)
      ensures remote.quiet && result.Err? && result.problem.verdict ==>
        result.problem == RoleConflict(group) && Conflicting(remote.lk, group)
      ensures old(remote.faults) <= remote.faults
      ensures NameListed(listing, group) && (forall e :: e in listing && e.name == group ==> e.managed) ==> result.Ok?
      ensures NameListed(listing, group) && (forall e :: e in listing && e.name == group ==> !e.managed) ==>
        result == Err(RoleConflict(group))
      ensures remote.quiet && remote.faults == old(remote.faults) ==> result.Ok? || result == Err(RoleConflict(group))
    {
      for k := 0 to |listing|
        invariant forall i :: 0 <= i < k ==> listing[i].name != group
      {
        var e := listing[k];
        if e.name == group {
          assert e in listing;
          assert remote.quiet ==> IsRole(remote.lk, group, e.id);
          return if e.managed then Ok(e.id) else Err(RoleConflict(group));
        }
      }
      result := CreateRole(group);
    }

    /** The POST of `ensure_role`, and the second look after a 409. */
    method CreateRole(group: string) returns (result: Result<RoleId>)
      requires Valid()
      requires remote.quiet ==> forall r :: !IsRole(remote.lk, group, r)
      modifies remote
      ensures Valid() && old(remote.history) <= remote.history
      ensures Grows(old(remote.lk), remote.lk)
      ensures result.Ok? ==> ManagedRole(remote.lk, result.value) && IsRole(remote.lk, group, result.value)
      ensures remote.quiet && result.Ok? ==>
        result.value !in old(remote.lk).roles &&
        remote.lk == old(remote.lk).(roles := old(remote.lk).roles[result.value := NewRole(group, remote.client)])
      ensures remote.quiet && result.Err? ==> remote.lk == old(remote.lk) && !result.problem.verdict
      ensures old(remote.faults) <= remote.faults
      ensures remote.quiet && remote.faults == old(remote.faults) ==> result.Ok?
    {
      var created := remote.PostRole(group);
      match created
      case Created(id) => result := Ok(id);
      case NotCreated => result := Err(RoleCreateFailed(group));
      case NoAnswer => result := Ended;
      case NameTaken =>
        ghost var taken :| taken in remote.lk.roles && remote.lk.roles[taken].name == group;
        assert IsRole(remote.lk, group, taken);
        ghost var posted := remote.lk;
        result := AdoptTaken(group);
        KeepsTransitive(old(remote.lk), posted, remote.lk, {}, {}, {}, {});
    }

    /** The second look of `ensure_role`, after a 409. */
    method AdoptTaken(group: string) returns (result: Result<RoleId>)
      requires Valid()
      modifies remote
      ensures Valid() && old(remote.history) <= remote.history
      ensures Grows(old(remote.lk), remote.lk) && old(remote.faults) <= remote.faults
      ensures result.Ok? ==> ManagedRole(remote.lk, result.value) && IsRole(remote.lk, group, result.value)
    {
      var answer, again := remote.ListRoles();
      if !answer.Accepted? { return Ended; }
      for k := 0 to |again| {
        assert again[k] in again;
        if again[k].name == group && again[k].managed { return Ok(again[k].id); }
      }
      result := Err(RoleAppeared(group));
    }

    /** The write of `sync_assignees`: a removal drops the table first. */
    method PostAssigneeChange(r: RoleId, current: set<string>, desired: set<string>)
      returns (result: Result<(nat, nat)>)
      requires Valid() && ManagedRole(remote.lk, r) && current <= remote.lk.roles[r].assignees
      requires remote.quiet ==> current == remote.lk.roles[r].assignees
      modifies this, remote
      ensures Valid() && old(remote.history) <= remote.history
      ensures Keeps(old(remote.lk), remote.lk, {r}, {})
      ensures result.Ok? ==> r in remote.lk.roles && desired <= remote.lk.roles[r].assignees
      ensures remote.quiet && result.Ok? ==> remote.lk == WithAssignees(old(remote.lk), r, desired)
      ensures remote.quiet && result.Err? ==> remote.lk == old(remote.lk)
      ensures remote.quiet ==> remote.table == None || remote.table == old(remote.table)
      ensures result.Err? ==> result.problem == ASSIGNEES_FAILED
      ensures old(remote.faults) <= remote.faults
      ensures remote.faults == old(remote.faults) ==> result.Ok?
    {
      var writes, deletes := desired - current, current - desired;
      if deletes != {} {
        var _ := InvalidateAccessTable();
      }
      ghost var dropped := remote.lk;
      Unchanged(dropped, remote.client);
      DifferenceApplied(current, dropped.roles[r].assignees, desired);
      var answer := remote.PostAssignees(r, writes, deletes);
      KeepsTransitive(old(remote.lk), dropped, remote.lk, {}, {}, if deletes == {} then {} else {r}, {});
      result := if answer.Unreachable? then Ended
                else if answer.Refused? then Err(ASSIGNEES_FAILED) else Ok((|writes|, |deletes|));
    }

    /** `sync_assignees`: the role's assignees become exactly `users`; `(written, removed)`.
        Nothing is written when they already are. */
    method SyncAssignees(r: RoleId, users: set<string>) returns (result: Result<(nat, nat)>)
      requires Valid() && ManagedRole(remote.lk, r)
      modifies this, remote
      ensures Valid() && old(remote.history) <= remote.history
      ensures Keeps(old(remote.lk), remote.lk, {r}, {})
      ensures result.Ok? ==> r in remote.lk.roles && Principals(users) <= remote.lk.roles[r].assignees
      ensures remote.quiet && result.Ok? ==> remote.lk == WithAssignees(old(remote.lk), r, Principals(users))
      ensures remote.quiet && result.Err? ==> remote.lk == old(remote.lk)
      ensures remote.quiet && old(remote.lk).roles[r].assignees == Principals(users) ==> Untouched()
      ensures result.Err? ==> result.problem == ASSIGNEES_FAILED
      ensures old(remote.faults) <= remote.faults
      ensures remote.faults == old(remote.faults) ==> result.Ok?
    {
      var answer, current := remote.GetAssignees(r);
      if answer.Unreachable? { return Ended; }
      if answer.Refused? { return Err(ASSIGNEES_FAILED); }
      ghost var read := remote.lk;
      var desired := Principals(users);
      if desired - current == {} && current - desired == {} {
        assert current == desired;
        SameAssignees(read, r);
        return Ok((0, 0));
      }
      result := PostAssigneeChange(r, current, desired);
      KeepsTransitive(old(remote.lk), read, remote.lk, {}, {}, {r}, {});
    }

    /** `ensure_admin_grant`; anything but success ends the tick. */
    method EnsureAdminGrant(r: RoleId) returns (ok: bool)
      requires Valid() && ManagedRole(remote.lk, r)
      modifies remote
      ensures Valid() && old(remote.history) <= remote.history
      ensures Grows(old(remote.lk), remote.lk)
      ensures ok ==> Assignment(ProjectAdmin, RoleRef(r)) in remote.lk.project
      ensures remote.quiet && ok ==>
        remote.lk == old(remote.lk).(project := old(remote.lk).project + {Assignment(ProjectAdmin, RoleRef(r))})
      ensures remote.quiet && Assignment(ProjectAdmin, RoleRef(r)) in old(remote.lk).project ==> Untouched()
      ensures old(remote.faults) <= remote.faults
      ensures remote.faults == old(remote.faults) ==> ok
    {
      var answer, project := remote.GetProject();
      if !answer.Accepted? { return false; }
      if Assignment(ProjectAdmin, RoleRef(r)) in project {
        assert project == project + {Assignment(ProjectAdmin, RoleRef(r))};
        return true;
      }
      ghost var read := remote.lk;
      answer := remote.PostAdmin(r);
      KeepsTransitive(old(remote.lk), read, remote.lk, {}, {}, {}, {});
      ok := answer.Accepted?;
    }

    /** The ids of the roles this job manages, from a fresh listing. */
    method ManagedRoleIds() returns (answer: Answer, managed: set<RoleId>)
      requires Valid()
      modifies remote
      ensures Valid() && old(remote.history) <= remote.history
      ensures Grows(old(remote.lk), remote.lk) && remote.calls == old(remote.calls)
      ensures answer.Accepted? ==> forall r :: r in managed <==> ManagedRole(remote.lk, r)
      ensures remote.quiet ==> Untouched()
      ensures remote.faults == old(remote.faults) + if answer.Accepted? then 0 else 1
    {
      var listing;
      answer, listing := remote.ListRoles();
      managed := set e | e in listing && e.managed :: e.id;
      if answer.Accepted? {
        forall r ensures r in managed <==> ManagedRole(remote.lk, r) {
          if ManagedRole(remote.lk, r) {
            assert RoleEntry(r, remote.lk.roles[r].name, true) in listing;
          }
        }
      }
    }

    /** `ensure_warehouse`: `Ok(true)` when a warehouse of this name exists afterwards,
        `Ok(false)` when it could not be made. */
    method EnsureWarehouse(name: string) returns (result: Result<bool>)
      requires Valid()
      modifies remote
      ensures Valid() && old(remote.history) <= remote.history
      ensures Grows(old(remote.lk), remote.lk)
      ensures !result.Err?
      ensures result == Ok(true) ==> name in remote.lk.warehouses
      ensures remote.quiet && result == Ok(true) && name !in old(remote.lk).warehouses ==>
        remote.lk == WithGrants(old(remote.lk), name, CreatorGrants(remote.client))
      ensures remote.quiet && result == Ok(false) ==> remote.lk == old(remote.lk)
      ensures remote.quiet && name in old(remote.lk).warehouses ==> Untouched() && result != Ok(false)
      ensures old(remote.faults) <= remote.faults
      ensures remote.faults == old(remote.faults) ==> result == Ok(true)
    {
      var answer, names := remote.WarehouseNames();
      if !answer.Accepted? { return Ended; }
      if name in names { return Ok(true); }
      ghost var read := remote.lk;
      var nameTaken;
      answer, nameTaken := remote.PostWarehouse(name);
      ghost var posted := remote.lk;
      KeepsTransitive(old(remote.lk), read, posted, {}, {}, {}, {});
      if answer.Unreachable? { return Ended; }
      if nameTaken {
        result := FindWarehouse(name);
        KeepsTransitive(old(remote.lk), posted, remote.lk, {}, {}, {}, {});
        return;
      }
      result := Ok(answer.Accepted?);
    }

    /** The second look of `ensure_warehouse`, after a 409. */
    method FindWarehouse(name: string) returns (result: Result<bool>)
      requires Valid()
      modifies remote
      ensures Valid() && old(remote.history) <= remote.history
      ensures Grows(old(remote.lk), remote.lk) && (remote.quiet ==> remote.lk == old(remote.lk))
      ensures !result.Err? && (result.Ok? ==> result.value == (name in remote.lk.warehouses))
      ensures remote.faults == old(remote.faults) + if result.Ok? then 0 else 1
    {
      var answer, names := remote.WarehouseNames();
      result := if !answer.Accepted? then Ended else Ok(name in names);
    }

    /** The roles a tick may name in a grant: ours, all of them when nobody else writes. */
    ghost predicate RolesKnown(roleIds: RoleIds, managed: set<RoleId>)
      reads remote
    {
      RolesKnownIn(remote.lk, remote.quiet, roleIds, managed)
    }

    /** The write of `sync_warehouse_grants`: a removal drops the table first. */
    method PostGrantChange(c: string, read: set<Assignment>, managed: set<RoleId>, declared: set<(Relation, RoleId)>)
      returns (answer: Answer)
      requires Valid() && c in remote.lk.warehouses && read == remote.lk.warehouses[c]
      requires forall r :: r in managed ==> ManagedRole(remote.lk, r)
      requires forall p :: p in declared ==> p.1 in managed
      modifies this, remote
      ensures Valid() && old(remote.history) <= remote.history
      ensures Keeps(old(remote.lk), remote.lk, {}, {c})
      ensures answer.Accepted? ==> c in remote.lk.warehouses && RoleGrants(declared) <= remote.lk.warehouses[c]
      ensures remote.quiet && answer.Accepted? ==>
        remote.lk == WithGrants(old(remote.lk), c, Converged(read, managed, declared))
      ensures remote.quiet && answer.Refused? ==> remote.lk == old(remote.lk)
      ensures old(remote.faults) <= remote.faults
      ensures remote.faults == old(remote.faults) ==> answer.Accepted?
    {
      var current := CurrentPairs(read);
      var writes, deletes := declared - current, Undeclared(current, managed, declared);
      if deletes != {} {
        var _ := InvalidateAccessTable();
      }
      ghost var dropped := remote.lk;
      Unchanged(dropped, remote.client);
      DifferenceManaged(old(remote.lk), dropped, current, managed, declared);
      answer := remote.PostGrants(c, writes, deletes);
      KeepsTransitive(old(remote.lk), dropped, remote.lk, {}, {}, {}, if deletes == {} then {} else {c});
      if answer.Accepted? {
        GrantsSurvive(old(remote.lk), dropped, c, managed, declared);
        DeclaredCovered(dropped, c, read, managed, declared, remote.lk.warehouses[c]);
      }
    }

    /** The difference of one warehouse, when there is one. */
    method ConvergeGrants(c: string, read: set<Assignment>, managed: set<RoleId>, declared: set<(Relation, RoleId)>)
      returns (answer: Answer)
      requires Valid() && c in remote.lk.warehouses && read == remote.lk.warehouses[c]
      requires forall r :: r in managed ==> ManagedRole(remote.lk, r)
      requires forall p :: p in declared ==> p.1 in managed
      modifies this, remote
      ensures Valid() && old(remote.history) <= remote.history
      ensures Keeps(old(remote.lk), remote.lk, {}, {c})
      ensures answer.Accepted? ==> c in remote.lk.warehouses && RoleGrants(declared) <= remote.lk.warehouses[c]
      ensures remote.quiet && answer.Accepted? ==>
        remote.lk == WithGrants(old(remote.lk), c, Converged(read, managed, declared))
      ensures remote.quiet && answer.Refused? ==> remote.lk == old(remote.lk)
      ensures NoDifference(read, managed, declared) ==> Untouched() && answer.Accepted?
      ensures old(remote.faults) <= remote.faults
      ensures remote.faults == old(remote.faults) ==> answer.Accepted?
    {
      if NoDifference(read, managed, declared) {
        NothingToWrite(read, managed, declared);
        SameGrants(remote.lk, c);
        Unchanged(remote.lk, remote.client);
        return Accepted;
      }
      answer := PostGrantChange(c, read, managed, declared);
    }

    /** `sync_warehouse_grants`: the grants of managed roles on one warehouse become the
        declared ones; everything else is only counted. `apply == false` writes nothing. */
    method SyncWarehouseGrants(c: string, desired: set<(Relation, string)>, roleIds: RoleIds, managed: set<RoleId>,
                               apply: bool) returns (result: Result<GrantCounts>)
      requires Valid() && RolesKnown(roleIds, managed)
      modifies this, remote
      ensures Valid() && old(remote.history) <= remote.history
      ensures Keeps(old(remote.lk), remote.lk, {}, {c})
      ensures result.Err? ==> result.problem == GRANTS_FAILED
      ensures apply && result.Ok? ==>
        c in remote.lk.warehouses && RoleGrants(RolePairs(desired, roleIds)) <= remote.lk.warehouses[c]
      ensures remote.quiet && result.Ok? ==>
        c in old(remote.lk).warehouses && result.value.foreign == |ForeignGrants(old(remote.lk), c, own)|
      ensures remote.quiet && apply && result.Ok? ==>
        remote.lk ==
          WithGrants(old(remote.lk), c, Converged(old(remote.lk).warehouses[c], managed, RolePairs(desired, roleIds)))
      ensures remote.quiet && (!apply || result.Err?) ==> remote.lk == old(remote.lk)
      ensures remote.quiet && (!apply || GrantsAre(old(remote.lk), c, RolePairs(desired, roleIds))) ==> Untouched()
      ensures old(remote.faults) <= remote.faults
      ensures remote.faults == old(remote.faults) ==> result.Ok?
    {
      var answer, assignments := remote.GetGrants(c);
      if answer.Unreachable? { return Ended; }
      if answer.Refused? { return Err(GRANTS_FAILED); }
      ghost var read := remote.lk;
      var current := CurrentPairs(assignments);
      var declared := RolePairs(desired, roleIds);
      var writes, deletes := declared - current, Undeclared(current, managed, declared);
      var foreign := |CountedForeign(assignments, managed, own)|;
      if remote.quiet { CountedIsForeign(read, c, managed, own); }
      if !apply { return Ok(GrantCounts(0, 0, foreign)); }
      if remote.quiet && ManagedGrants(read, c) == RoleGrants(declared) {
        ConvergedAlready(read, c, managed, declared);
      }
      answer := ConvergeGrants(c, assignments, managed, declared);
      KeepsTransitive(old(remote.lk), read, remote.lk, {}, {}, {}, {c});
      result := if answer.Unreachable? then Ended
                else if answer.Refused? then Err(GRANTS_FAILED) else Ok(GrantCounts(|writes|, |deletes|, foreign));
    }
  }
}
