/** Step 2 of a tick: one role per group, with the group's users as its assignees. */
module AccessRoles {
  import opened Text
  import opened AccessModel
  import opened AccessTable
  import opened LakekeeperApi
  import opened AccessJob

  type Problems = map<string, Problem>

  /** A role id the tick holds is a managed role of that name. */
  ghost predicate RolesNamed(lk: Lakekeeper, roleIds: RoleIds) {
    forall g :: g in roleIds ==> ManagedRole(lk, roleIds[g]) && IsRole(lk, g, roleIds[g])
  }

  /** Every handled group has a problem, or a role that holds its users. */
  ghost predicate GroupsHandled(lk: Lakekeeper, groups: set<string>, roleIds: RoleIds, problems: Problems,
                                members: Members, fixed: Members) {
    forall g :: g in groups ==> g in problems || GroupSynced(lk, roleIds, g, members, fixed)
  }

  /** The role holds exactly the group's users. */
  ghost predicate RoleExact(lk: Lakekeeper, r: RoleId, g: string, users: set<string>) {
    IsRole(lk, g, r) && lk.roles[r].managed && lk.roles[r].assignees == Principals(users)
  }

  /** Nothing is left to do for a group: its role is exact, or not ours. */
  ghost predicate RoleSettled(lk: Lakekeeper, g: string, users: set<string>) {
    Conflicting(lk, g) || exists r :: RoleExact(lk, r, g, users)
  }

  lemma KeepsNamed(a: Lakekeeper, b: Lakekeeper, rs: set<RoleId>, ws: set<string>, roleIds: RoleIds)
    requires Keeps(a, b, rs, ws) && RolesNamed(a, roleIds)
    ensures RolesNamed(b, roleIds)
  {
  }

  lemma KeepsHandled(a: Lakekeeper, b: Lakekeeper, rs: set<RoleId>, ws: set<string>, groups: set<string>,
                     roleIds: RoleIds, problems: Problems, members: Members, fixed: Members)
    requires Keeps(a, b, rs, ws) && GroupsHandled(a, groups, roleIds, problems, members, fixed)
    requires forall g :: g in groups && g !in problems ==> g in roleIds && roleIds[g] !in rs
    ensures GroupsHandled(b, groups, roleIds, problems, members, fixed)
  {
    forall g | g in groups && g !in problems ensures GroupSynced(b, roleIds, g, members, fixed) {
      assert GroupSynced(a, roleIds, g, members, fixed);
    }
  }

  /** Every role is in the listing as it is, or belongs to a group already handled. */
  ghost predicate ListingTracks(listing: seq<RoleEntry>, lk: Lakekeeper, done: set<string>) {
    && (forall e :: e in listing ==>
          e.id in lk.roles && lk.roles[e.id].name == e.name && lk.roles[e.id].managed == e.managed)
    && (forall r :: r in lk.roles ==>
          lk.roles[r].name in done || RoleEntry(r, lk.roles[r].name, lk.roles[r].managed) in listing)
  }

  lemma TracksCurrent(listing: seq<RoleEntry>, lk: Lakekeeper, done: set<string>, group: string)
    requires ListingTracks(listing, lk, done) && group !in done
    ensures ListingCurrent(listing, lk, group)
  {
  }

  /** Only the role named `group` may have changed, or been created. */
  ghost predicate OnlyRole(a: Lakekeeper, b: Lakekeeper, group: string) {
    && b.warehouses == a.warehouses && b.project == a.project
    && (forall r :: r in a.roles ==>
          r in b.roles && b.roles[r].name == a.roles[r].name && b.roles[r].managed == a.roles[r].managed
          && (a.roles[r].name != group || !a.roles[r].managed ==> b.roles[r] == a.roles[r]))
    && (forall r :: r in b.roles && r !in a.roles ==> b.roles[r].name == group && b.roles[r].managed)
  }

  /** Every role that is not ours was there before, as it was. */
  ghost predicate NoNewForeign(a: Lakekeeper, b: Lakekeeper) {
    forall r :: r in b.roles && !b.roles[r].managed ==> r in a.roles && b.roles[r] == a.roles[r]
  }

  lemma ConflictBefore(a: Lakekeeper, b: Lakekeeper, group: string)
    requires NoNewForeign(a, b) && Conflicting(b, group)
    ensures Conflicting(a, group)
  {
    var r :| IsRole(b, group, r) && !b.roles[r].managed;
    assert IsRole(a, group, r);
  }

  lemma OnlyRoleTracks(a: Lakekeeper, b: Lakekeeper, group: string, listing: seq<RoleEntry>, done: set<string>)
    requires OnlyRole(a, b, group) && ListingTracks(listing, a, done)
    ensures ListingTracks(listing, b, done + {group})
  {
  }

  lemma SettledIsListed(lk: Lakekeeper, group: string, users: set<string>, listing: seq<RoleEntry>)
    requires ListingCurrent(listing, lk, group) && RoleSettled(lk, group, users)
    ensures NameListed(listing, group)
  {
    var r :| IsRole(lk, group, r);
    assert RoleEntry(r, group, lk.roles[r].managed) in listing;
  }

  lemma SettledAssignees(lk: Lakekeeper, group: string, users: set<string>, id: RoleId)
    requires UniqueRoleNames(lk) && RoleSettled(lk, group, users) && ManagedRole(lk, id) && IsRole(lk, group, id)
    ensures lk.roles[id].assignees == Principals(users)
  {
  }

  lemma OnlyEnsured(a: Lakekeeper, b: Lakekeeper, group: string, id: RoleId, client: string)
    requires b == a || (id !in a.roles && b == a.(roles := a.roles[id := NewRole(group, client)]))
    ensures OnlyRole(a, b, group)
  {
  }

  lemma OnlyAssigned(a: Lakekeeper, b: Lakekeeper, group: string, id: RoleId, assignees: set<string>)
    requires OnlyRole(a, b, group) && ManagedRole(b, id) && IsRole(b, group, id)
    ensures OnlyRole(a, WithAssignees(b, id, assignees), group)
  {
  }

  lemma GrowsThenKeeps(a: Lakekeeper, b: Lakekeeper, c: Lakekeeper, id: RoleId)
    requires Grows(a, b) && Keeps(b, c, {id}, {})
    ensures Keeps(a, c, {id}, {})
  {
    KeepsTransitive(a, b, c, {}, {}, {id}, {});
    assert {} + {id} == {id};
  }

  /** What one group came to: its role (with a problem when its assignees could not be
      written), no role, or the end of the tick. */
  datatype GroupResult = Handled(id: RoleId, trouble: Option<Problem>) | NoRole(problem: Problem) | TickEnds

  /** What the work on one group makes of Lakekeeper. With nobody else writing it touches no
      other role, and a role without a problem holds exactly the group's users. */
  ghost predicate GroupOutcome(a: Lakekeeper, b: Lakekeeper, quiet: bool, group: string, users: set<string>,
                               result: GroupResult) {
    match result
    case TickEnds => true
    case NoRole(p) =>
      && Grows(a, b)
      && (quiet ==> OnlyRole(a, b, group) && (p.verdict ==> p == RoleConflict(group) && Conflicting(b, group)))
    case Handled(id, trouble) =>
      && Keeps(a, b, {id}, {}) && ManagedRole(b, id) && IsRole(b, group, id)
      && (trouble == None ==> Principals(users) <= b.roles[id].assignees)
      && (trouble.Some? ==> !trouble.value.verdict)
      && (quiet ==> OnlyRole(a, b, group) && (trouble == None ==> RoleExact(b, id, group, users)))
  }

  /** A role was ensured from `a` to `e`, and its assignees were synced from `e` to `b`. */
  lemma HandledOutcome(a: Lakekeeper, e: Lakekeeper, b: Lakekeeper, quiet: bool, group: string, users: set<string>,
                       id: RoleId, trouble: Option<Problem>, client: string)
    requires Grows(a, e) && ManagedRole(e, id) && IsRole(e, group, id) && Keeps(e, b, {id}, {})
    requires trouble == None ==> id in b.roles && Principals(users) <= b.roles[id].assignees
    requires trouble.Some? ==> !trouble.value.verdict
    requires quiet ==> e == a || (id !in a.roles && e == a.(roles := a.roles[id := NewRole(group, client)]))
    requires quiet ==> b == if trouble == None then WithAssignees(e, id, Principals(users)) else e
    ensures GroupOutcome(a, b, quiet, group, users, Handled(id, trouble))
  {
    GrowsThenKeeps(a, e, b, id);
    if quiet {
      OnlyEnsured(a, e, group, id, client);
      OnlyAssigned(a, e, group, id, Principals(users));
    }
  }

  /** The assignees of the role that was ensured since `start`. */
  method AssignUsers(job: Job, group: string, id: RoleId, users: set<string>, ghost start: Lakekeeper)
    returns (result: GroupResult)
    requires job.Valid() && ManagedRole(job.remote.lk, id) && IsRole(job.remote.lk, group, id)
    requires Grows(start, job.remote.lk)
    requires job.remote.quiet ==>
      job.remote.lk == start ||
      (id !in start.roles && job.remote.lk == start.(roles := start.roles[id := NewRole(group, job.remote.client)]))
    modifies job, job.remote
    ensures job.Valid() && old(job.remote.history) <= job.remote.history
    ensures !result.NoRole? && GroupOutcome(start, job.remote.lk, job.remote.quiet, group, users, result)
    ensures job.remote.quiet && old(job.remote.lk).roles[id].assignees == Principals(users) ==> job.Untouched()
    ensures old(job.remote.faults) <= job.remote.faults
    ensures job.remote.faults == old(job.remote.faults) ==> result == Handled(id, None)
  {
    var synced := job.SyncAssignees(id, users);
    if synced.Ended? { return TickEnds; }
    var trouble := if synced.Err? then Some(synced.problem) else None;
    HandledOutcome(start, old(job.remote.lk), job.remote.lk, job.remote.quiet, group, users, id, trouble,
                   job.remote.client);
    result := Handled(id, trouble);
  }

  /** Step 2 for one group. */
  method SyncGroup(job: Job, group: string, listing: seq<RoleEntry>, users: set<string>) returns (result: GroupResult)
    requires job.Valid() && ListingHolds(listing, job.remote.lk)
    requires job.remote.quiet ==> ListingCurrent(listing, job.remote.lk, group)
    modifies job, job.remote
    ensures job.Valid() && old(job.remote.history) <= job.remote.history
    ensures GroupOutcome(old(job.remote.lk), job.remote.lk, job.remote.quiet, group, users, result)
    ensures job.remote.quiet && RoleSettled(old(job.remote.lk), group, users) ==> job.Untouched()
    ensures old(job.remote.faults) <= job.remote.faults
    ensures job.remote.quiet && job.remote.faults == old(job.remote.faults) ==>
      (result.Handled? && result.trouble == None) || result == NoRole(RoleConflict(group))
  {
    ghost var settled := job.remote.quiet && RoleSettled(job.remote.lk, group, users);
    if settled { SettledIsListed(job.remote.lk, group, users, listing); }
    var role := job.EnsureRole(group, listing);
    if role.Ended? { return TickEnds; }
    if role.Err? { return NoRole(role.problem); }
    if settled { SettledAssignees(job.remote.lk, group, users, role.value); }
    result := AssignUsers(job, group, role.value, users, old(job.remote.lk));
  }

  /** With nobody else writing: each handled group's role is exact, or its problem says
      why, and a problem that is no verdict was counted as a failure. */
  ghost predicate QuietRoles(lk: Lakekeeper, done: set<string>, roleIds: RoleIds, problems: Problems,
                             failures: nat, members: Members, fixed: Members) {
    forall g :: g in done ==>
      if g in problems then
        (if problems[g].verdict then problems[g] == RoleConflict(g) && Conflicting(lk, g) else failures > 0)
      else
        g in roleIds && RoleExact(lk, roleIds[g], g, GroupUsers(g, members, fixed))
  }

  lemma OnlyRoleQuiet(a: Lakekeeper, b: Lakekeeper, group: string, done: set<string>, roleIds: RoleIds,
                      problems: Problems, failures: nat, members: Members, fixed: Members)
    requires OnlyRole(a, b, group) && group !in done
    requires QuietRoles(a, done, roleIds, problems, failures, members, fixed)
    ensures QuietRoles(b, done, roleIds, problems, failures, members, fixed)
  {
    forall g | g in done && g in problems && problems[g].verdict ensures Conflicting(b, g) {
      var r :| IsRole(a, g, r) && !a.roles[r].managed;
      assert IsRole(b, g, r);
    }
  }

  ghost predicate RolesSettled(lk: Lakekeeper, groups: set<string>, members: Members, fixed: Members) {
    forall g :: g in groups ==> RoleSettled(lk, g, GroupUsers(g, members, fixed))
  }

  lemma QuietSettled(lk: Lakekeeper, done: set<string>, roleIds: RoleIds, problems: Problems, members: Members,
                     fixed: Members)
    requires QuietRoles(lk, done, roleIds, problems, 0, members, fixed)
    ensures RolesSettled(lk, done, members, fixed)
  {
  }

  /** The record of one handled group. */
  function Note(problems: Problems, group: string, result: GroupResult): Problems {
    match result
    case Handled(_, Some(p)) => problems[group := p]
    case NoRole(p) => problems[group := p]
    case _ => problems
  }

  function NoteRole(roleIds: RoleIds, group: string, result: GroupResult): RoleIds {
    if result.Handled? then roleIds[group := result.id] else roleIds
  }

  function NoteFailure(failures: nat, result: GroupResult): nat {
    match result
    case Handled(_, Some(_)) => failures + 1
    case NoRole(p) => if p.verdict then failures else failures + 1
    case _ => failures
  }

  lemma HandledStep(a: Lakekeeper, b: Lakekeeper, group: string, result: GroupResult, done: set<string>,
                    roleIds: RoleIds, problems: Problems, members: Members, fixed: Members)
    requires !result.TickEnds? && group !in done && UniqueRoleNames(b)
    requires RolesNamed(a, roleIds) && GroupsHandled(a, done, roleIds, problems, members, fixed)
    requires roleIds.Keys <= done && problems.Keys <= done
    requires result.Handled? ==>
      Keeps(a, b, {result.id}, {}) && ManagedRole(b, result.id) && IsRole(b, group, result.id)
    requires result.Handled? && result.trouble == None ==>
      Principals(GroupUsers(group, members, fixed)) <= b.roles[result.id].assignees
    requires result.NoRole? ==> Grows(a, b)
    ensures RolesNamed(b, NoteRole(roleIds, group, result))
    ensures GroupsHandled(b, done + {group}, NoteRole(roleIds, group, result), Note(problems, group, result), members,
                          fixed)
  {
    var rs := if result.Handled? then {result.id} else {};
    KeepsNamed(a, b, rs, {}, roleIds);
    if result.Handled? {
      forall g | g in roleIds ensures roleIds[g] != result.id {
        assert IsRole(b, g, roleIds[g]);
      }
    }
    forall g | g in done && g !in problems ensures g in roleIds {
      assert GroupSynced(a, roleIds, g, members, fixed);
    }
    KeepsHandled(a, b, rs, {}, done, roleIds, problems, members, fixed);
    forall g | g in done && g !in problems
      ensures GroupSynced(b, NoteRole(roleIds, group, result), g, members, fixed)
    {
      assert GroupSynced(b, roleIds, g, members, fixed);
    }
  }

  lemma QuietStep(a: Lakekeeper, b: Lakekeeper, group: string, result: GroupResult, done: set<string>,
                  roleIds: RoleIds, problems: Problems, failures: nat, members: Members, fixed: Members)
    requires !result.TickEnds? && group !in done && OnlyRole(a, b, group)
    requires roleIds.Keys <= done && problems.Keys <= done
    requires QuietRoles(a, done, roleIds, problems, failures, members, fixed)
    requires result.Handled? && result.trouble.Some? ==> !result.trouble.value.verdict
    requires result.Handled? && result.trouble == None ==>
      RoleExact(b, result.id, group, GroupUsers(group, members, fixed))
    requires result.NoRole? && result.problem.verdict ==> result.problem == RoleConflict(group) && Conflicting(b, group)
    ensures QuietRoles(b, done + {group}, NoteRole(roleIds, group, result), Note(problems, group, result),
                       NoteFailure(failures, result), members, fixed)
  {
    OnlyRoleQuiet(a, b, group, done, roleIds, problems, failures, members, fixed);
  }

  lemma KeepsListing(a: Lakekeeper, b: Lakekeeper, rs: set<RoleId>, listing: seq<RoleEntry>)
    requires Keeps(a, b, rs, {}) && ListingHolds(listing, a)
    ensures ListingHolds(listing, b)
  {
  }

  /** What step 2 leaves for the rest of the tick. */
  datatype Roles = Roles(ids: RoleIds, problems: Problems, failures: nat)

  ghost predicate RolesDone(lk: Lakekeeper, groups: set<string>, roles: Roles, members: Members, fixed: Members) {
    && roles.ids.Keys <= groups && roles.problems.Keys <= groups
    && RolesNamed(lk, roles.ids) && GroupsHandled(lk, groups, roles.ids, roles.problems, members, fixed)
  }

  ghost predicate QuietDone(lk: Lakekeeper, groups: set<string>, roles: Roles, members: Members, fixed: Members) {
    QuietRoles(lk, groups, roles.ids, roles.problems, roles.failures, members, fixed)
  }

  function NoteAll(roles: Roles, group: string, result: GroupResult): Roles {
    Roles(NoteRole(roles.ids, group, result), Note(roles.problems, group, result), NoteFailure(roles.failures, result))
  }

  /** Where the loop of step 2 stands once the groups in `done` are handled. */
  ghost predicate RolesProgress(lk: Lakekeeper, quiet: bool, done: set<string>, listing: seq<RoleEntry>, roles: Roles,
                                members: Members, fixed: Members) {
    && ListingHolds(listing, lk) && RolesDone(lk, done, roles, members, fixed)
    && (quiet ==> ListingTracks(listing, lk, done) && QuietDone(lk, done, roles, members, fixed))
  }

  lemma ProgressStep(a: Lakekeeper, b: Lakekeeper, quiet: bool, group: string, result: GroupResult, done: set<string>,
                     listing: seq<RoleEntry>, roles: Roles, members: Members, fixed: Members)
    requires !result.TickEnds? && group !in done && UniqueRoleNames(b)
    requires RolesProgress(a, quiet, done, listing, roles, members, fixed)
    requires GroupOutcome(a, b, quiet, group, GroupUsers(group, members, fixed), result)
    ensures RolesProgress(b, quiet, done + {group}, listing, NoteAll(roles, group, result), members, fixed)
    ensures quiet ==> NoNewForeign(a, b)
  {
    KeepsListing(a, b, if result.Handled? then {result.id} else {}, listing);
    HandledStep(a, b, group, result, done, roles.ids, roles.problems, members, fixed);
    if quiet {
      OnlyRoleTracks(a, b, group, listing, done);
      QuietStep(a, b, group, result, done, roles.ids, roles.problems, roles.failures, members, fixed);
    }
  }

  /** The body of the loop of step 2. */
  method SyncNext(job: Job, group: string, ghost done: set<string>, listing: seq<RoleEntry>, roles: Roles,
                  members: Members, fixed: Members) returns (ended: bool, next: Roles)
    requires job.Valid() && group !in done
    requires RolesProgress(job.remote.lk, job.remote.quiet, done, listing, roles, members, fixed)
    modifies job, job.remote
    ensures job.Valid() && old(job.remote.history) <= job.remote.history
    ensures !ended ==> RolesProgress(job.remote.lk, job.remote.quiet, done + {group}, listing, next, members, fixed)
    ensures job.remote.quiet && RoleSettled(old(job.remote.lk), group, GroupUsers(group, members, fixed)) ==>
      job.Untouched()
    ensures next.failures >= roles.failures
    ensures old(job.remote.faults) <= job.remote.faults
    ensures job.remote.quiet && job.remote.faults == old(job.remote.faults) ==>
      !ended && next.failures == roles.failures
    ensures job.remote.quiet && !ended ==> NoNewForeign(old(job.remote.lk), job.remote.lk)
  {
    ghost var before := job.remote.lk;
    if job.remote.quiet { TracksCurrent(listing, before, done, group); }
    var users := GroupUsers(group, members, fixed);
    var result := SyncGroup(job, group, listing, users);
    next := NoteAll(roles, group, result);
    ended := result.TickEnds?;
    if !ended {
      ProgressStep(before, job.remote.lk, job.remote.quiet, group, result, done, listing, roles, members, fixed);
    }
  }

  /** The loop of step 2 over the groups in order. */
  method SyncListed(job: Job, order: seq<string>, listing: seq<RoleEntry>, members: Members, fixed: Members)
    returns (ended: bool, roles: Roles)
    requires job.Valid() && Increasing(order)
    requires RolesProgress(job.remote.lk, job.remote.quiet, {}, listing, Roles(map[], map[], 0), members, fixed)
    modifies job, job.remote
    ensures job.Valid() && old(job.remote.history) <= job.remote.history
    ensures !ended ==>
      RolesProgress(job.remote.lk, job.remote.quiet, Elements(order, |order|), listing, roles, members, fixed)
    ensures job.remote.quiet && RolesSettled(old(job.remote.lk), Elements(order, |order|), members, fixed) ==>
      job.Untouched()
    ensures old(job.remote.faults) <= job.remote.faults
    ensures job.remote.quiet && job.remote.faults == old(job.remote.faults) ==> !ended && roles.failures == 0
    ensures job.remote.quiet && !ended ==> NoNewForeign(old(job.remote.lk), job.remote.lk)
  {
    roles := Roles(map[], map[], 0);
    for k := 0 to |order|
      invariant job.Valid() && old(job.remote.history) <= job.remote.history &&
        old(job.remote.faults) <= job.remote.faults
      invariant job.remote.quiet && job.remote.faults == old(job.remote.faults) ==> roles.failures == 0
      invariant job.remote.quiet ==> NoNewForeign(old(job.remote.lk), job.remote.lk)
      invariant RolesProgress(job.remote.lk, job.remote.quiet, Elements(order, k), listing, roles, members, fixed)
      invariant job.remote.quiet && RolesSettled(old(job.remote.lk), Elements(order, |order|), members, fixed) ==>
        job.Untouched()
    {
      SortedDistinct(order, k);
      ended, roles := SyncNext(job, order[k], Elements(order, k), listing, roles, members, fixed);
      if ended { return; }
      assert Elements(order, k + 1) == Elements(order, k) + {order[k]};
    }
    ended := false;
  }

  function Elements(order: seq<string>, n: nat): set<string>
    requires n <= |order|
  {
    set i | 0 <= i < n :: order[i]
  }

  /** Step 2: one role per group, its assignees converged once. */
  method SyncRoles(job: Job, groups: set<string>, members: Members, fixed: Members)
    returns (ended: bool, roles: Roles)
    requires job.Valid()
    modifies job, job.remote
    ensures job.Valid() && old(job.remote.history) <= job.remote.history
    ensures !ended ==> RolesDone(job.remote.lk, groups, roles, members, fixed)
    ensures !ended && job.remote.quiet ==> QuietDone(job.remote.lk, groups, roles, members, fixed)
    ensures job.remote.quiet && RolesSettled(old(job.remote.lk), groups, members, fixed) ==> job.Untouched()
    ensures old(job.remote.faults) <= job.remote.faults
    ensures job.remote.quiet && job.remote.faults == old(job.remote.faults) ==> !ended && roles.failures == 0
    ensures job.remote.quiet && !ended ==> NoNewForeign(old(job.remote.lk), job.remote.lk)
  {
    roles := Roles(map[], map[], 0);
    var answer, listing := job.remote.ListRoles();
    if !answer.Accepted? { return true, roles; }
    var order := Sorted(groups);
    assert Elements(order, |order|) == groups;
    ended, roles := SyncListed(job, order, listing, members, fixed);
  }

  lemma SortedDistinct(order: seq<string>, k: nat)
    requires Increasing(order) && k < |order|
    ensures forall i :: 0 <= i < k ==> order[i] != order[k]
  {
    forall i | 0 <= i < k ensures order[i] != order[k] {
      LessAsymmetric(order[i], order[k]);
    }
  }
}
