/** The two services the access sync writes to, Lakekeeper and OPA, as one remote object.
    Every call may be accepted, refused, or leave the caller without an answer, and other
    clients may move between any two calls. Every observable state is recorded. */
module LakekeeperApi {
  import opened Text
  import opened AccessModel

  /** The answer to one call; without an answer the write may or may not have happened. */
  datatype Answer = Accepted | Refused | Unreachable(applied: bool)

  predicate Applied(a: Answer) {
    a.Accepted? || (a.Unreachable? && a.applied)
  }

  datatype RoleCreation = Created(id: RoleId) | NameTaken | NotCreated | NoAnswer

  datatype RoleEntry = RoleEntry(id: RoleId, name: string, managed: bool)

  /** A call that asks for a change. */
  datatype Call = PostedRole | PostedAssignees | PostedGrants | PostedAdmin | PostedWarehouse
    | DeletedTable(done: bool) | PutTable(taken: bool, adminSynced: bool)

  /** OPA answered every DELETE that was asked for with success. */
  predicate DropsDone(calls: seq<Call>) {
    DeletedTable(false) !in calls
  }

  /** Every table that was put came after a sync of the admin role without a problem. */
  predicate AdminsSynced(calls: seq<Call>) {
    PutTable(true, false) !in calls && PutTable(false, false) !in calls
  }

  /** In no moment the document was one a DELETE was asked for and did not remove. */
  ghost predicate NoDropLost(history: seq<Moment>) {
    history == [] || (!history[|history| - 1].dropLost && NoDropLost(history[..|history| - 1]))
  }

  /** In no moment it was one published after a sync of the admin role with a problem. */
  ghost predicate NoAdminLost(history: seq<Moment>) {
    history == [] || (!history[|history| - 1].adminLost && NoAdminLost(history[..|history| - 1]))
  }

  lemma {:induction false} NoneLost(history: seq<Moment>, m: Moment)
    requires m in history
    ensures NoDropLost(history) ==> !m.dropLost
    ensures NoAdminLost(history) ==> !m.adminLost
  {
    if m != history[|history| - 1] { NoneLost(history[..|history| - 1], m); }
  }

  /** What the moments of a run say went wrong is a call that went wrong. */
  ghost predicate Accounted(history: seq<Moment>, calls: seq<Call>) {
    (DropsDone(calls) ==> NoDropLost(history)) && (AdminsSynced(calls) ==> NoAdminLost(history))
  }

  lemma AccountedMore(history: seq<Moment>, calls: seq<Call>, m: Moment, more: seq<Call>)
    requires Accounted(history, calls)
    requires DropsDone(calls + more) ==> !m.dropLost
    requires AdminsSynced(calls + more) ==> !m.adminLost
    ensures Accounted(history + [m], calls + more)
  {
    assert (history + [m])[..|history|] == history;
  }

  class Remote {
    /** The principal this job authenticates as. */
    const client: string
    /** No other client writes while the job runs. */
    const quiet: bool
    var lk: Lakekeeper
    var table: Option<Table>
    ghost var dropLost: bool
    ghost var adminLost: bool
    ghost var history: seq<Moment>
    ghost var calls: seq<Call>
    /** The calls so far that were not accepted; a name that is taken is none. */
    ghost var faults: nat

    ghost function Now(): World
      reads this
    {
      World(lk, table)
    }

    ghost predicate Valid()
      reads this
    {
      && UniqueRoleNames(lk)
      && Run(history, client)
      && history[|history| - 1] == Moment(history[|history| - 1].actor, Now(), dropLost, adminLost)
      && Accounted(history, calls)
    }

    /** Between the two states no call of this job asked for a change. */
    twostate predicate OnlyOthersMoved()
      reads this
    {
      && Grows(old(lk), lk)
      && (table == old(table) || table == None)
      && (quiet ==> lk == old(lk) && table == old(table))
      && dropLost == old(dropLost) && adminLost == old(adminLost)
      && calls == old(calls) && old(history) <= history
    }

    constructor (client: string, quiet: bool, lk: Lakekeeper)
      requires UniqueRoleNames(lk)
      ensures Valid() && this.client == client && this.quiet == quiet && this.lk == lk
      ensures table == None && calls == []
    {
      this.client, this.quiet, this.lk, table := client, quiet, lk, None;
      dropLost, adminLost, calls, faults := false, false, [], 0;
      history := [Moment(Others, World(lk, None), false, false)];
    }

    /** Somebody else's move, or none. */
    method Interfere()
      requires Valid()
      modifies this`lk, this`table, this`history
      ensures Valid() && OnlyOthersMoved()
    {
      var next: World := *;
      if !quiet && Rely(World(lk, table), next) {
        ghost var before := history[|history| - 1];
        lk, table := next.lk, next.table;
        GrowingKeepsAcceptable(before, Moment(Others, Now(), dropLost, adminLost));
        RunExtends(history, Moment(Others, Now(), dropLost, adminLost), client);
        AccountedMore(history, calls, Moment(Others, Now(), dropLost, adminLost), []);
        assert calls + [] == calls;
        history := history + [Moment(Others, Now(), dropLost, adminLost)];
      }
    }

    /** The record of one call of the job that leaves the services in the current state. */
    ghost method Record(call: Call, ok: bool)
      requires Run(history, client) && UniqueRoleNames(lk)
      requires ForeignKept(history[|history| - 1].world.lk, lk, client)
      requires Acceptable(Moment(Job, Now(), dropLost, adminLost)) && Accounted(history, calls)
      requires DropsDone(calls + [call]) ==> !dropLost
      requires AdminsSynced(calls + [call]) ==> !adminLost
      modifies this`history, this`calls, this`faults
      ensures Valid()
      ensures history == old(history) + [Moment(Job, Now(), dropLost, adminLost)]
      ensures calls == old(calls) + [call] && faults == old(faults) + if ok then 0 else 1
    {
      RunExtends(history, Moment(Job, Now(), dropLost, adminLost), client);
      AccountedMore(history, calls, Moment(Job, Now(), dropLost, adminLost), [call]);
      history := history + [Moment(Job, Now(), dropLost, adminLost)];
      calls := calls + [call];
      if !ok { faults := faults + 1; }
    }

    /** One call of the job that takes Lakekeeper to `next`. A right held through a
        managed role may only go away once no table can still list it. */
    method Commit(next: Lakekeeper, ghost call: Call, ghost ok: bool)
      requires Valid() && UniqueRoleNames(next) && ForeignKept(lk, next, client)
      requires Grows(lk, next) || table == None || dropLost
      modifies this`lk, this`history, this`calls, this`faults
      ensures Valid() && lk == next && faults == old(faults) + if ok then 0 else 1
      ensures history == old(history) + [Moment(Job, Now(), dropLost, adminLost)]
      ensures calls == old(calls) + [call]
    {
      ghost var before := history[|history| - 1];
      if Grows(lk, next) {
        GrowingKeepsAcceptable(before, Moment(Job, World(next, table), dropLost, adminLost));
      }
      lk := next;
      Record(call, ok);
    }

    /** One more call that was not accepted, unless this one was. */
    ghost method Tally(ok: bool)
      modifies this`faults
      ensures faults == old(faults) + if ok then 0 else 1
    {
      if !ok { faults := faults + 1; }
    }

    // ---------- reads ----------

    method ListRoles() returns (answer: Answer, listing: seq<RoleEntry>)
      requires Valid()
      modifies this`lk, this`table, this`history, this`faults
      ensures Valid() && OnlyOthersMoved()
      ensures answer.Accepted? ==> Lists(listing, lk)
      ensures faults == old(faults) + if answer.Accepted? then 0 else 1
    {
      Interfere();
      answer := *;
      listing := [];
      var left := lk.roles.Keys;
      while left != {}
        invariant left <= lk.roles.Keys
        invariant forall e :: e in listing ==>
          e.id in lk.roles && e.name == lk.roles[e.id].name && e.managed == lk.roles[e.id].managed
        invariant forall r :: r in lk.roles && r !in left ==>
          RoleEntry(r, lk.roles[r].name, lk.roles[r].managed) in listing
      {
        var r :| r in left;
        listing := listing + [RoleEntry(r, lk.roles[r].name, lk.roles[r].managed)];
        left := left - {r};
      }
      Tally(answer.Accepted?);
    }

    method GetAssignees(r: RoleId) returns (answer: Answer, assignees: set<string>)
      requires Valid()
      modifies this`lk, this`table, this`history, this`faults
      ensures Valid() && OnlyOthersMoved()
      ensures answer.Accepted? ==> r in lk.roles && assignees == lk.roles[r].assignees
      ensures faults == old(faults) + if answer.Accepted? then 0 else 1
    {
      Interfere();
      answer := *;
      assignees := {};
      if r !in lk.roles {
        answer := Refused;
      } else {
        assignees := lk.roles[r].assignees;
      }
      Tally(answer.Accepted?);
    }

    method GetGrants(c: string) returns (answer: Answer, assignments: set<Assignment>)
      requires Valid()
      modifies this`lk, this`table, this`history, this`faults
      ensures Valid() && OnlyOthersMoved()
      ensures answer.Accepted? ==> c in lk.warehouses && assignments == lk.warehouses[c]
      ensures faults == old(faults) + if answer.Accepted? then 0 else 1
    {
      Interfere();
      answer := *;
      assignments := {};
      if c !in lk.warehouses {
        answer := Refused;
      } else {
        assignments := lk.warehouses[c];
      }
      Tally(answer.Accepted?);
    }

    method GetProject() returns (answer: Answer, assignments: set<Assignment>)
      requires Valid()
      modifies this`lk, this`table, this`history, this`faults
      ensures Valid() && OnlyOthersMoved()
      ensures answer.Accepted? ==> assignments == lk.project
      ensures faults == old(faults) + if answer.Accepted? then 0 else 1
    {
      Interfere();
      answer := *;
      assignments := lk.project;
      Tally(answer.Accepted?);
    }

    method WarehouseNames() returns (answer: Answer, names: set<string>)
      requires Valid()
      modifies this`lk, this`table, this`history, this`faults
      ensures Valid() && OnlyOthersMoved()
      ensures answer.Accepted? ==> names == lk.warehouses.Keys
      ensures faults == old(faults) + if answer.Accepted? then 0 else 1
    {
      Interfere();
      answer := *;
      names := lk.warehouses.Keys;
      Tally(answer.Accepted?);
    }

    // ---------- writes ----------

    /** POST a role: the server refuses a name that is taken with 409. */
    method PostRole(name: string) returns (created: RoleCreation)
      requires Valid()
      modifies this`lk, this`table, this`history, this`calls, this`faults
      ensures Valid() && old(history) <= history
      ensures calls == old(calls) + [PostedRole]
      ensures Grows(old(lk), lk) && (table == old(table) || table == None)
      ensures quiet ==> table == old(table)
      ensures created.NameTaken? ==> exists r :: r in lk.roles && lk.roles[r].name == name
      ensures created.Created? ==>
        created.id in lk.roles && lk.roles[created.id].name == name && lk.roles[created.id].managed
      ensures created.Created? && quiet ==>
        created.id !in old(lk).roles && lk == old(lk).(roles := old(lk).roles[created.id := NewRole(name, client)])
      ensures quiet && (created.NameTaken? || created.NotCreated?) ==> lk == old(lk)
      ensures faults == old(faults) + if created.Created? || created.NameTaken? then 0 else 1
    {
      Interfere();
      var answer: Answer := *;
      var id: RoleId := *;
      var next := lk;
      if exists r | r in lk.roles :: lk.roles[r].name == name {
        created := if answer.Accepted? then NameTaken else if answer.Refused? then NotCreated else NoAnswer;
      } else {
        created := if answer.Accepted? && id !in lk.roles then Created(id)
                   else if answer.Unreachable? then NoAnswer else NotCreated;
        if id !in lk.roles && Applied(answer) {
          RoleStep(lk, id, name, client);
          next := lk.(roles := lk.roles[id := NewRole(name, client)]);
        }
      }
      KeepsTransitive(old(lk), lk, next, {}, {}, {}, {});
      Unchanged(lk, client);
      Commit(next, PostedRole, created.Created? || created.NameTaken?);
    }

    /** POST the difference of a role's assignees. A removal is only asked for once the
        table is gone, or its DELETE is known to have failed. */
    method PostAssignees(r: RoleId, writes: set<string>, deletes: set<string>) returns (answer: Answer)
      requires Valid() && ManagedRole(lk, r)
      requires deletes == {} || table == None || dropLost
      modifies this`lk, this`table, this`history, this`calls, this`faults
      ensures Valid() && old(history) <= history
      ensures calls == old(calls) + [PostedAssignees]
      ensures Keeps(old(lk), lk, if deletes == {} then {} else {r}, {})
      ensures table == old(table) || table == None
      ensures quiet ==> table == old(table)
      ensures answer.Accepted? ==>
        r in lk.roles && (old(lk).roles[r].assignees - deletes) + writes <= lk.roles[r].assignees
      ensures quiet && answer.Accepted? ==>
        lk == WithAssignees(old(lk), r, (old(lk).roles[r].assignees - deletes) + writes)
      ensures quiet && answer.Refused? ==> lk == old(lk)
      ensures faults == old(faults) + if answer.Accepted? then 0 else 1
    {
      Interfere();
      answer := *;
      var next := lk;
      if Applied(answer) {
        next := WithAssignees(lk, r, (lk.roles[r].assignees - deletes) + writes);
        AssigneesPosted(old(lk), lk, r, writes, deletes, client);
      }
      Unchanged(lk, client);
      Commit(next, PostedAssignees, answer.Accepted?);
    }

    /** POST the difference of a warehouse's role grants. */
    method PostGrants(c: string, writes: set<(Relation, RoleId)>, deletes: set<(Relation, RoleId)>)
      returns (answer: Answer)
      requires Valid() && c in lk.warehouses
      requires forall p :: p in writes + deletes ==> ManagedRole(lk, p.1)
      requires deletes == {} || table == None || dropLost
      modifies this`lk, this`table, this`history, this`calls, this`faults
      ensures Valid() && old(history) <= history
      ensures calls == old(calls) + [PostedGrants]
      ensures Keeps(old(lk), lk, {}, if deletes == {} then {} else {c})
      ensures table == old(table) || table == None
      ensures quiet ==> table == old(table)
      ensures answer.Accepted? ==>
        c in lk.warehouses && RoleGrants(writes) <= lk.warehouses[c] &&
        ManagedGrants(old(lk), c) - RoleGrants(deletes) <= lk.warehouses[c]
      ensures quiet && answer.Accepted? ==>
        lk == WithGrants(old(lk), c, (old(lk).warehouses[c] - RoleGrants(deletes)) + RoleGrants(writes))
      ensures quiet && answer.Refused? ==> lk == old(lk)
      ensures faults == old(faults) + if answer.Accepted? then 0 else 1
    {
      Interfere();
      answer := *;
      var next := lk;
      if Applied(answer) {
        next := WithGrants(lk, c, (lk.warehouses[c] - RoleGrants(deletes)) + RoleGrants(writes));
        GrantsPosted(old(lk), lk, c, writes, deletes, client);
      }
      Unchanged(lk, client);
      Commit(next, PostedGrants, answer.Accepted?);
    }

    /** POST `project_admin` for a role. */
    method PostAdmin(r: RoleId) returns (answer: Answer)
      requires Valid() && ManagedRole(lk, r)
      modifies this`lk, this`table, this`history, this`calls, this`faults
      ensures Valid() && old(history) <= history
      ensures calls == old(calls) + [PostedAdmin]
      ensures Grows(old(lk), lk) && (table == old(table) || table == None)
      ensures quiet ==> table == old(table)
      ensures answer.Accepted? ==> Assignment(ProjectAdmin, RoleRef(r)) in lk.project
      ensures quiet && answer.Accepted? ==>
        lk == old(lk).(project := old(lk).project + {Assignment(ProjectAdmin, RoleRef(r))})
      ensures faults == old(faults) + if answer.Accepted? then 0 else 1
    {
      Interfere();
      answer := *;
      var next := lk;
      if Applied(answer) {
        AdminStep(lk, r, client);
        next := lk.(project := lk.project + {Assignment(ProjectAdmin, RoleRef(r))});
      }
      Unchanged(lk, client);
      KeepsTransitive(old(lk), lk, next, {}, {}, {}, {});
      Commit(next, PostedAdmin, answer.Accepted?);
    }

    /** POST a warehouse: `nameTaken` is the server's 409. */
    method PostWarehouse(name: string) returns (answer: Answer, nameTaken: bool)
      requires Valid()
      modifies this`lk, this`table, this`history, this`calls, this`faults
      ensures Valid() && old(history) <= history
      ensures calls == old(calls) + [PostedWarehouse]
      ensures Grows(old(lk), lk) && (table == old(table) || table == None)
      ensures quiet ==> table == old(table)
      ensures answer.Accepted? ==> !nameTaken && name in lk.warehouses
      ensures nameTaken ==> answer.Refused? && name in lk.warehouses
      ensures quiet && answer.Accepted? ==>
        name !in old(lk).warehouses && lk == WithGrants(old(lk), name, CreatorGrants(client))
      ensures quiet && answer.Refused? ==> lk == old(lk)
      ensures faults == old(faults) + if answer.Accepted? || nameTaken then 0 else 1
    {
      Interfere();
      answer := *;
      var next := lk;
      nameTaken := name in lk.warehouses && answer.Accepted?;
      if nameTaken {
        answer := Refused;
      } else if name !in lk.warehouses && Applied(answer) {
        WarehouseStep(lk, name, client);
        next := WithGrants(lk, name, CreatorGrants(client));
      }
      Unchanged(lk, client);
      KeepsTransitive(old(lk), lk, next, {}, {}, {}, {});
      Commit(next, PostedWarehouse, answer.Accepted? || nameTaken);
    }

    /** DELETE the document; `Accepted` covers 404. */
    method DeleteTable() returns (answer: Answer)
      requires Valid()
      modifies this
      ensures Valid() && old(history) <= history
      ensures calls == old(calls) + [DeletedTable(answer.Accepted?)]
      ensures Grows(old(lk), lk) && adminLost == old(adminLost)
      ensures table == None || dropLost
      ensures answer.Accepted? ==> table == None && !dropLost
      ensures quiet ==> lk == old(lk) && (table == None || table == old(table))
      ensures faults == old(faults) + if answer.Accepted? then 0 else 1
    {
      Interfere();
      answer := *;
      if Applied(answer) {
        table, dropLost := None, false;
      } else {
        dropLost := table.Some?;
      }
      Record(DeletedTable(answer.Accepted?), answer.Accepted?);
    }

    /** PUT a document whose verb and `manage` lists Lakekeeper backs; `adminSynced` says that it also
        backs the `all` lists. */
    method PutDocument(document: Table, ghost adminSynced: bool) returns (answer: Answer)
      requires Valid()
      requires TableBacked(World(lk, Some(document))) && ManagersBacked(World(lk, Some(document)))
      requires adminSynced ==> AllBacked(World(lk, Some(document)))
      modifies this
      ensures Valid() && old(history) <= history
      ensures calls == old(calls) + [PutTable(answer.Accepted?, adminSynced)]
      ensures Grows(old(lk), lk)
      ensures answer.Accepted? ==> table == Some(document) && !dropLost && adminLost == !adminSynced
      ensures quiet ==> lk == old(lk)
      ensures faults == old(faults) + if answer.Accepted? then 0 else 1
    {
      ghost var checked := Moment(Job, World(lk, Some(document)), false, !adminSynced);
      Interfere();
      answer := *;
      if Applied(answer) {
        table, dropLost, adminLost := Some(document), false, !adminSynced;
        GrowingKeepsAcceptable(checked, Moment(Job, Now(), dropLost, adminLost));
      }
      Record(PutTable(answer.Accepted?, adminSynced), answer.Accepted?);
    }
  }

  /** A complete listing of the roles, in some order. */
  ghost predicate Lists(listing: seq<RoleEntry>, lk: Lakekeeper) {
    && (forall e :: e in listing ==>
          e.id in lk.roles && e.name == lk.roles[e.id].name && e.managed == lk.roles[e.id].managed)
    && (forall r :: r in lk.roles ==> RoleEntry(r, lk.roles[r].name, lk.roles[r].managed) in listing)
  }
}
