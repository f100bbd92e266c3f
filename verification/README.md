# Stardelt operator: access sync, Lakehouse lifecycle and three smaller agreements

This project models the parts of the Stardelt operator whose behaviour spans many steps,
and proves what they promise.

- **The access sync** (`Access*.dfy`, `LakekeeperApi.dfy`, `KubeApi.dfy`). A job brings
  Lakekeeper's roles and warehouse grants in line with Catalogs and SqlWarehouses and
  publishes a decision table to OPA that must never answer more than Lakekeeper would. It is
  a class with the services as a remote object whose every call may be accepted, refused or
  stay unanswered, and whose other clients may move between any two calls. The remote object
  records every observable state, so that a property of its recorded history is a property of
  all runs. `quiet` says that nobody else writes while the job runs; what is stated without
  it holds in spite of everybody else.
- **What it renders for Trino** (`ResourceGroups.dfy`, `GroupRouting.dfy`,
  `DocumentText.dfy`, `WarehouseSync.dfy`, `StatusPatch.dfy`, `Json.dfy`): resource groups, the
  group file, and statuses as JSON merge patches.

  What a tick leaves is stated twice: as the point where nothing is left to write
  (`LakeSettled`), and in terms of its input alone (`AsDeclared`, `ClassesDeclared`).
- **The Lakehouse** (`LakehouseOwnership.dfy`, `HelmRelease.dfy`, `HelmCluster.dfy`,
  `ReleasePass.dfy`, `ReleaseRecords.dfy`, `ReleaseRuns.dfy`, `ReleaseLimits.dfy`,
  `LakehouseReleases.dfy`): who owns a namespace, as a state machine over API requests; and
  applying and deleting releases, as a class over a cluster whose requests may fail. What a
  pass does is a function of the answers its requests get (`ReleasePass.dfy`); the methods are tied to it, and what passes
  achieve and where they stop short is proved about it, for one pass (`ReleaseRecords.dfy`) and
  for any sequence of passes and deletions (`ReleaseRuns.dfy`). Three accounts go along:
  `unmarked`, the releases a failed upgrade left without the marker; `blind`, those whose
  history could not be read; `lost`, the upgrades whose status was not written.
- **Pipelines** (`PipelineOrder.dfy`): Kahn's worklist and what it decides.
- **Base64** (`Base64Url.dfy`): the encoder against section 5 of RFC 4648.
- **Two agreements across files** (`ConnectionPaths.dfy`, `IssuerUrl.dfy`): connection paths
  against store policies, and the issuer URL against the JupyterHub callback.

`dafny verify dfyconfig.toml` checks all of it.

## What the proofs found

- A removal goes ahead when the DELETE of the table before it failed. The table is sound in
  every state provided each DELETE that was asked for succeeded (`AccessTick.RunTicks`), and a
  concrete run shows that the condition is needed (`AccessLimits.FailedDropLeavesStale`). The
  next PUT OPA takes ends it.
- `all` is published from the realm even when the sync of the admin role failed, because the
  role's id is known before its assignees are written (`AccessLimits.BuildAfterFailedSync`).
- Routing is right for everybody if and only if the admin group is not named like the group of
  a warehouse with members who are not administrators (`GroupRouting.RoutingExact`).
- The deletion of a Lakehouse does not look for its own finalizer. A blocked Lakehouse has
  none and normally disappears at once; held by another finalizer, as foreground deletion
  adds, it is reconciled and uninstalls the owner's releases, which the comment in
  `reconcile_lakehouse` rules out (`LakehouseOwnership.BlockedUninstalls`). Whoever uninstalls
  is the owner if and only if it was fetched with the finalizer (`LakehouseOwnership.OneOwner`).
- Finalizers are patched by name only; a name used again while a reconcile is in flight breaks
  the ownership rule (`LakehouseOwnership.NameReuseBreaks`).
- Of two Lakehouses created in the same second the one whose name sorts first counts as older;
  when it is the younger one, both come to hold the finalizer
  (`LakehouseOwnership.SameSecondBreaks`).
- The comment at controller.rs:559-561 says that releases the operator installed keep
  reconciling because their history carries the marker. That holds for upgrades that succeed.
  A first install that fails or times out may leave a release whose one revision does not have
  the description it was given. The operator then takes its own release for a foreign one: it
  leaves it alone in every later pass until `adopt` is set, and a deletion drops the finalizer,
  and under `Delete` the data, with the release still there
  (`ReleaseLimits.FailedInstallLocksOut`). There is no other way to lose a release
  (`ReleaseRuns.LostOnlySo`, and `ReleaseRuns.RecognisedExactly` for when one is recognised).
- A history that cannot be read counts as not foreign. A foreign release is touched exactly
  then: upgraded (`ReleaseRecords.ForeignTouched`, `ReleaseLimits.BlindTakeover`) or
  uninstalled (`ReleaseLimits.ForeignUninstalled`).
- Volumes are chosen by label alone, whoever installed the storage release: the release stays
  and its volumes go (`LakehouseReleases.Owner.DeleteBesideForeign`).
- A status write that is lost can make a later pass skip a component it should apply and say
  `Ready` (`ReleaseLimits.LostStatusSkips`), exactly as long as the lost upgrade is not the one
  asked for and no written pass upgraded the component again (`ReleaseRecords.SkipExact`,
  `ReleaseRecords.ReliableAfter`).
- A Lakehouse that was applied and then edited to `dryRun: true` is deleted without a single
  uninstall, although the comment at controller.rs:774-783 says that it never applied anything;
  and a component taken out of the plan is not uninstalled (`ReleaseLimits.EditedToDryRun`,
  `ReleaseLimits.DroppedFromPlan`). When nothing is left behind is `ReleaseRuns.NothingLeft`.
- A queued reconcile that starts with an old version of a Lakehouse that is gone applies
  releases nobody holds, or uninstalls those of its successor
  (`LakehouseOwnership.StaleApplies`, `LakehouseOwnership.StaleUninstalls`); that the finalizer
  is the oldest one's, and one's only, holds in spite of it (`LakehouseOwnership.OneHolder`).
- In external mode the derived callback is on a host of the identity provider unless its host
  is one label and the base domain. For the repository's own Entra example it is
  `https://jupyter.microsoftonline.com/hub/oauth_callback`, while the checklist has
  `https://jupyter.data.example.com/hub/oauth_callback` registered (`IssuerUrl.ExternalCallback`,
  `IssuerUrl.EntraCallback`); an instance like it needs the callback override.
- Policy and role names `eso-{namespace}-{group}` collide for `a-b`, `c` and `a`, `b-c`
  (`ConnectionPaths.RoleNamesCollide`).
- A dependency named twice is counted twice and taken off once, so it is refused as a circle
  (`PipelineOrder.RepeatIsNoCircle`).
- A group called `managed` shares its store with the managed connections, whose paths its
  policy does not cover (`ConnectionPaths.ManagedPlan`, `ConnectionPaths.StoreReadsPath`).

## Assumptions

- Role names are unique in Lakekeeper, role assignees are users, warehouses are addressed by
  their unique names, and nobody else removes a grant or an assignee of a managed role.
- A subject of Lakekeeper that names a deleted role gives nobody a right.
- The keys of new Lakehouses are above all live ones, and names are not used again while a
  reconcile of their bearer is in flight. Where nothing else is said, a reconcile sees the
  object as it is when it starts.
- Nobody but the operator upgrades the releases of a plan between its passes.
- Nobody but the operator sets or removes its finalizer, and no object carries it when it is
  created.
- A request to Lakekeeper or OPA that is answered with an error was not applied; one that got no
  answer was applied before the next request, or not at all. Helm and the Kubernetes API may
  have applied what they answer with an error.

## Model

| member | source | states |
|---|---|---|
| AccessTick.RunTicks | crates/stardelt-operator/src/access_sync_job.py:1635-1806 | Any number of ticks on any inputs, each call accepted, refused or unanswered and other clients moving in between: when OPA answered every DELETE that was asked for with success, in every state along the way every user in a verb list or `manage` list of the published table holds that right in Lakekeeper; when moreover no table was put after a sync of the admin role with a problem, every user in `all` is a project administrator in every state; and a state that is not so is one whose table OPA refused to drop. |
| AccessTick.Tick | crates/stardelt-operator/src/access_sync_job.py:1635-1802 | One tick. With nobody else writing, a published table marks exactly the catalogs with foreign assignments as drifted, answers exactly what Lakekeeper derives for every other and every user but the sync's own client, and lists the admin group under `all` and the owner's group under `manage`; when nothing failed, it names exactly the Catalogs that break no rule and all of whose groups the realm has, each with a role that is not somebody else's. A clean tick leaves nothing to write anywhere, and what is there is what the input declares: roles with exactly their groups' users, the declared grants on the warehouses, statuses that say what is true, and two files by which Trino sends everybody where they belong. A tick on a settled state asks Lakekeeper and OPA for nothing but the PUT and writes no Kubernetes object; a PUT OPA took ends the effect of an earlier failed DELETE. And it gets there: a tick in which no call fails, with an admin group the realm has and no foreign role of its name, is clean and its table is published. |
| AccessFixedPoint.SettledIsDeclared | crates/stardelt-operator/src/access_sync_job.py:1635-1802 | What a clean tick leaves, in terms of its input alone: the admin role holds `project_admin`; every group the realm has and a Catalog, a warehouse or the admin setting names has a managed role with exactly its users, or its name is taken by somebody else's role; a Catalog that breaks a rule has a status that names the rule; every other has its warehouse and a status whose `GrantsReady` and `Drift` conditions say whether its groups are usable and whether somebody else holds assignments there; and if they are usable, the managed roles hold on it exactly the relations the spec asks for. |
| AccessTick.CoversComplete | crates/stardelt-operator/src/access_sync_job.py:1715-1760 | In such a state the document names exactly the Catalogs that break no rule and all of whose groups the realm has, none of them under somebody else's role. |
| AccessFixedPoint.GroupsExactly | crates/stardelt-operator/src/access_sync_job.py:771-788 | The groups of a tick are the admin group, every owner and every group a grant of a Catalog or a warehouse names. |
| AccessTick.TickTwice | crates/stardelt-operator/src/access_sync_job.py:1635-1802 | Idempotence: after a clean first tick the second one on the same input changes no role, grant, status or ConfigMap, does not drop the table, and its only request for a change is the PUT. |
| AccessTick.RunIsSound | crates/stardelt-operator/src/access_sync_job.py:736-768 | Soundness of the table in every state of a run follows from what each single call keeps. |
| AccessModel.JobConservesForeign | crates/stardelt-operator/src/access_sync_job.py:831-903 | Over any stretch of a run in which only the job acts, assignments of persons and of unmanaged roles, unmanaged roles themselves and every role's non-`assignee` entries are neither added nor removed. |
| AccessModel.GrowingKeepsAcceptable | crates/stardelt-operator/src/access_sync_job.py:736-768 | A move that takes away no right held through a managed role, and publishes no table, keeps the published table sound. |
| AccessModel.ImplicationsAgree | crates/stardelt-operator/src/access_sync_job.py:248-267 | The table's copy of the verb implications lists a verb exactly when Lakekeeper's relations give it. |
| AccessModel.BackedIsSound | crates/stardelt-operator/src/access_sync_job.py:257-267 | A table whose entries are held through managed roles is sound for Lakekeeper's own answer. |
| AccessLimits.FailedDropLeavesStale | crates/stardelt-operator/src/access_sync_job.py:868-903 | A recorded run of states, with one failed DELETE in its account, whose table then lists a user who has lost the right: the condition on the DELETE is needed. `AccessLimits.RemoveWithTable` has the same removal made by the job. |
| AccessLimits.RemoveWithTable | crates/stardelt-operator/src/access_sync_job.py:885-903 | The job's own removal on the services of that run: once it is accepted, the table that is left is sound exactly when it is gone, and one that is left is recorded as one whose DELETE failed. |
| AccessLimits.BuildAfterFailedSync | crates/stardelt-operator/src/access_sync_job.py:1676-1683 | The job's own calls when the sync of the admin role fails: the document built after it lists a member in `all` who administers nothing, so the condition on that sync is needed. |
| LakekeeperApi.Remote.Commit | crates/stardelt-operator/src/access_sync_job.py:578-596 | No call takes away a right held through a managed role while a table that could list it is still believed; every call is a step of the recorded run. |
| LakekeeperApi.Remote.PutDocument | crates/stardelt-operator/src/access_sync_job.py:698-733 | Only a document Lakekeeper backs is published; once OPA takes it, no earlier failed DELETE matters any more. |
| LakekeeperApi.Remote.DeleteTable | crates/stardelt-operator/src/access_sync_job.py:736-768 | Afterwards the table is gone, or it is known to be one whose DELETE failed; the call is recorded with its outcome. |
| AccessJob.Job.InvalidateAccessTable | crates/stardelt-operator/src/access_sync_job.py:736-768 | At most one DELETE in a tick; afterwards there is no table, or its DELETE failed, and Lakekeeper is as it was. |
| AccessJob.Job.EnsureRole | crates/stardelt-operator/src/access_sync_job.py:836-865 | An id it returns is that of a managed role of this name, whatever raced with it; a same-named unmanaged role is never returned but reported as a conflict; a listed managed role is always returned, at no write; and with nobody else writing only a failed call or a conflict stands in the way. |
| AccessJob.Job.CreateRole | crates/stardelt-operator/src/access_sync_job.py:854-865 | The POST and the second look after a 409: only a managed role is adopted, and with nobody else writing a refusal changes nothing. |
| AccessJob.Job.SyncAssignees | crates/stardelt-operator/src/access_sync_job.py:868-903 | An accepted sync leaves at least the group's users as assignees, exactly them when nobody else writes; equal sets ask for nothing; a removal comes only after the table was dropped; without a failed call the sync is done. |
| AccessJob.Job.PostAssigneeChange | crates/stardelt-operator/src/access_sync_job.py:885-903 | Removals drop the table before Lakekeeper is asked; a refused write changes nothing. |
| AccessJob.Job.SyncWarehouseGrants | crates/stardelt-operator/src/access_sync_job.py:906-971 | An accepted sync leaves every declared grant on the warehouse and, when nobody else writes, no other grant of a managed role; the drift it counts is the number of assignments that are neither a managed role's nor the client's own ownership; already declared grants ask for nothing. |
| AccessJob.Job.PostGrantChange | crates/stardelt-operator/src/access_sync_job.py:957-970 | Whatever others add meanwhile, an accepted write leaves all declared grants, and removals come after the drop of the table. |
| AccessJob.ConvergedIsExact | crates/stardelt-operator/src/access_sync_job.py:926-939 | Writing the computed difference leaves exactly the declared grants of managed roles and every foreign assignment as it was. |
| AccessJob.ConvergedAlready | crates/stardelt-operator/src/access_sync_job.py:926-957 | When the managed grants are the declared ones the difference is empty on both sides. |
| AccessJob.NothingToWrite | crates/stardelt-operator/src/access_sync_job.py:956-957 | An empty difference means that every declared grant is there and writing it would change nothing. |
| AccessJob.DeclaredCovered | crates/stardelt-operator/src/access_sync_job.py:926-970 | A difference computed from an older reading still leaves every declared grant once it is accepted. |
| AccessJob.CountedIsForeign | crates/stardelt-operator/src/access_sync_job.py:941-955 | The assignments counted as drift are exactly those that are not ours, the client's own ownership excepted. |
| AccessJob.Job.EnsureAdminGrant | crates/stardelt-operator/src/access_sync_job.py:974-993 | Afterwards the role holds `project_admin`; a role that holds it already costs no write. |
| AccessJob.Job.EnsureWarehouse | crates/stardelt-operator/src/access_sync_job.py:1053-1091 | A warehouse reported to exist does exist, also after a race; one that exists costs no write; a new one carries only its creator's ownership. |
| AccessTable.CatalogVerbLists | crates/stardelt-operator/src/access_sync_job.py:653-677 | The nested loops over held verbs list a user for a verb exactly when one of the spec's grants to one of the user's groups gives that verb. |
| AccessTable.HoldingIsListed | crates/stardelt-operator/src/access_sync_job.py:666-674 | Grouping the grants by group first loses and adds nobody. |
| AccessTable.HeldVerbs | crates/stardelt-operator/src/access_sync_job.py:666-670 | A group holds a verb exactly when some grant of the spec gives it one that has implications. |
| AccessTable.DesiredRelations | crates/stardelt-operator/src/access_sync_job.py:791-806 | The set the loop builds is the pair of the owner and one pair for every grant of a known verb to a named group, all for declared groups. |
| AccessTable.PairsExactly | crates/stardelt-operator/src/access_sync_job.py:248-256 | A spec asks for `manage_grants` for its owner, and for every grant to a named group for the relation of the grant's verb, each of the five verbs having its own; and for nothing else. |
| AccessTable.AccessDocument | crates/stardelt-operator/src/access_sync_job.py:680-695 | The document holds the entry of every published Catalog and nothing else. |
| AccessTable.ListedIsBacked | crates/stardelt-operator/src/access_sync_job.py:653-677 | Whoever the table lists for applied grants holds the verb in Lakekeeper through a managed role. |
| AccessTable.ManagerIsBacked | crates/stardelt-operator/src/access_sync_job.py:675-676 | Whoever the table lists under `manage` holds `manage_grants`; the owner group only, so a subset of those who do. |
| AccessTable.EffectiveIsListed | crates/stardelt-operator/src/access_sync_job.py:653-695 | On a warehouse without drift whoever holds a verb is listed, the sync's own client excepted. |
| AccessTable.DocumentBacked | crates/stardelt-operator/src/access_sync_job.py:680-695 | A document of applied Catalogs is sound, verb lists and `manage` lists. |
| AccessTable.DocumentAdmins | crates/stardelt-operator/src/access_sync_job.py:688-694 | With the admin role synced and granted, everybody in `all` is a project administrator. |
| AccessTable.DocumentExact | crates/stardelt-operator/src/access_sync_job.py:680-695 | The document answers exactly what Lakekeeper derives, in both directions, for every catalog not marked as drifted. |
| AccessTable.DocumentDrift | crates/stardelt-operator/src/access_sync_job.py:680-695 | A catalog is marked as drifted exactly when an assignment on its warehouse belongs neither to a managed role nor to the client's own ownership. |
| AccessRoles.SyncGroup | crates/stardelt-operator/src/access_sync_job.py:1667-1683 | One group comes to a managed role of its name that holds its users, or to a recorded problem; other roles are untouched; a settled group asks for nothing. |
| AccessRoles.HandledStep | crates/stardelt-operator/src/access_sync_job.py:1667-1683 | Handling one more group keeps every earlier group's role synced: role names are unique, so no other group's role is touched. |
| AccessRoles.ProgressStep | crates/stardelt-operator/src/access_sync_job.py:1667-1694 | Where the loop over the groups stands survives the work on one more group: recorded ids, problems and failures fit Lakekeeper as it is then, and no role of somebody else was made or changed. |
| AccessRoles.SyncRoles | crates/stardelt-operator/src/access_sync_job.py:1663-1694 | After the loop every group has a problem or a role that holds its users, exactly them when nobody else writes; settled roles ask for nothing; without a failed call there is no failure, and no role of somebody else is made or changed. |
| AccessRoles.QuietSettled | crates/stardelt-operator/src/access_sync_job.py:1663-1694 | A pass without failures leaves every group settled: an exact role, or a name that is not ours. |
| AccessCatalogs.SyncGrants | crates/stardelt-operator/src/access_sync_job.py:1742-1760 | The grants of one Catalog are applied exactly, or only read when its verdict forbids writing. |
| AccessCatalogs.SyncCatalog | crates/stardelt-operator/src/access_sync_job.py:1716-1775 | A Catalog is published only if it breaks no rule, none of the groups it names is unknown to the realm or has a problem, and its grants were applied; without a failure every such Catalog is; a settled Catalog writes nothing. |
| AccessCatalogs.ReadyGroupsSynced | crates/stardelt-operator/src/access_sync_job.py:1731-1741 | When no group a Catalog names is unknown or has a problem, the role of every declared group holds its users. |
| AccessCatalogs.VerdictExactly | crates/stardelt-operator/src/access_sync_job.py:1731-1741 | Grants may be applied exactly when no named group is unknown or has a problem; otherwise the verdict gives the first unknown group, and when all are known the reason and message of the first group with a problem. |
| AccessCatalogs.ProblemExactly | crates/stardelt-operator/src/access_sync_job.py:996-1020 | A Catalog has a problem exactly when its name breaks the pattern, is reserved, or its bucket is not the platform's, and the reason names the first of these. |
| AccessCatalogs.ReadyStatus | crates/stardelt-operator/src/access_sync_job.py:1407-1491 | A status that says what is wanted for a Catalog with a warehouse shows the phase `Ready`, the warehouse, and exactly three conditions of the job, with `GrantsReady` and `Drift` as computed. |
| AccessCatalogs.InvalidStatus | crates/stardelt-operator/src/access_sync_job.py:1716-1727 | A status that says what is wanted for a Catalog that breaks a rule shows `Invalid`, no warehouse, and one condition of the job with the rule as its reason. |
| AccessCatalogs.SyncCatalogs | crates/stardelt-operator/src/access_sync_job.py:1710-1775 | Over the whole loop: published Catalogs stay granted while later ones are worked on; when nothing failed, every Catalog that breaks no rule and names no unknown or blocked group is published; a settled list writes nothing; and without a failed call nothing fails. |
| AccessCatalogs.GrantedKept | crates/stardelt-operator/src/access_sync_job.py:1716-1760 | Work on another Catalog keeps a published one's grants. |
| AccessTick.SyncKnown | crates/stardelt-operator/src/access_sync_job.py:1648-1694 | Steps 1 and 2 on the groups the realm has; a settled state is left as it is. |
| AccessTick.PrepareRoles | crates/stardelt-operator/src/access_sync_job.py:1663-1708 | The tick goes on only with a managed admin role that holds `project_admin`, and with the ids of the managed roles. |
| AccessTick.PublishedApplied | crates/stardelt-operator/src/access_sync_job.py:1715-1760 | Whatever the loop lists for publishing has its grants in Lakekeeper, held by roles with their users. |
| AccessTick.DocumentCovers | crates/stardelt-operator/src/access_sync_job.py:1715-1760 | The document names exactly the Catalogs that break no rule and name no group that is unknown or has a problem. |
| AccessTick.DocumentStaffed | crates/stardelt-operator/src/access_sync_job.py:680-695 | Every entry has a list for each of the four verbs, the users of the admin group under `all`, and the users of the owner's group under `manage`, counting those the realm and `STATIC_ASSIGNEES` list. |
| AccessTick.BuildDocument | crates/stardelt-operator/src/access_sync_job.py:1785-1791 | The document of a tick is sound, exact when nobody else writes, and its `all` lists are right if the admin group had no problem. |
| AccessFixedPoint.RolesAgree | crates/stardelt-operator/src/access_sync_job.py:1663-1694 | Two ticks over the same state find the same role ids, and a tick that failed nowhere sees only problems every other tick sees. |
| AccessFixedPoint.SettledForAll | crates/stardelt-operator/src/access_sync_job.py:1710-1775 | A state one clean tick left settled is settled for whatever roles a later tick finds. |
| StatusPatch.PatchKeepsForeign | crates/stardelt-operator/src/access_sync_job.py:1459-1489 | A status write keeps every condition of another owner, unchanged and in order (JSON merge patch, RFC 7396). |
| StatusPatch.PatchThenMatches | crates/stardelt-operator/src/access_sync_job.py:1396-1491 | After a status write the status says, condition by condition, what was wanted, whatever was there before, and the same call finds nothing to write. |
| StatusPatch.MatchesExactly | crates/stardelt-operator/src/access_sync_job.py:1376-1393 | The writers skip a write exactly when the status fields are as wanted, `observedGeneration` is the object's generation, and the conditions the job owns are one for each report, in order: its type, "True" or "False", its reason and message or none, for that generation. |
| StatusPatch.PatchedConditions | crates/stardelt-operator/src/access_sync_job.py:1459-1489 | A write leaves in the list first one condition for each report, stamped with the time of the write, and then the conditions of others as they were. |
| StatusPatch.SideExactly | crates/stardelt-operator/src/access_sync_job.py:1449-1458 | The conditions of the job and those of others are the list divided by their types, in the list's order. |
| KubeApi.ConvergeStatus | crates/stardelt-operator/src/access_sync_job.py:1407-1491 | When the call gets through, the live status says what was wanted, field by field and condition by condition, whether or not a write was needed, and a write was made exactly when it did not say so before; other conditions stay whatever the request comes to. |
| KubeApi.Kube.PatchStatus | crates/stardelt-operator/src/access_sync_job.py:1396-1491 | A Catalog's status afterwards says what was wanted, with each condition's type, "True" or "False", reason and message for the object's present generation; one that said it already costs no request; no other Catalog changes. |
| KubeApi.Kube.PatchWarehouseStatus | crates/stardelt-operator/src/access_sync_job.py:1494-1563 | The same for a SqlWarehouse. |
| KubeApi.Kube.ConvergeConfigMap | crates/stardelt-operator/src/access_sync_job.py:1348-1373 | One key of a ConfigMap is written only when its text differs; other keys and ConfigMaps stay. |
| Json.PatchKeeps | crates/stardelt-operator/src/access_sync_job.py:1396-1491 | A merge patch leaves a key it does not name as it was. |
| Text.LessExactly | crates/stardelt-operator/src/access_sync_job.py:1267-1270 | Texts are ordered by the first character that differs, a prefix first, as Python sorts them. |
| ResourceGroups.OrderedInOrder | crates/stardelt-operator/src/access_sync_job.py:1254-1292 | The classes are ordered by size, largest first, then by name. |
| ResourceGroups.OrderUnique | crates/stardelt-operator/src/access_sync_job.py:1254-1292 | There is one such order for warehouses with distinct names. |
| ResourceGroups.OrderedPermutation | crates/stardelt-operator/src/access_sync_job.py:1254-1292 | Every listing order of the API gives the same ordered classes. |
| ResourceGroups.BeforeExactly | crates/stardelt-operator/src/access_sync_job.py:225-225 | The sort key puts large before medium before small before xs, an absent size counting as small, and equal sizes by name. |
| ResourceGroups.NumbersExactly | crates/stardelt-operator/src/access_sync_job.py:217-224 | Each of the four numbers of a class is what the spec says, or else the default of the class's size. |
| ResourceGroups.ProblemExactly | crates/stardelt-operator/src/access_sync_job.py:1137-1197 | A warehouse has a problem exactly when its name, its size, a repeated group or one of its numbers breaks a rule, and the first in that order is the one reported. |
| ResourceGroups.ShareExactly | crates/stardelt-operator/src/access_sync_job.py:211-211 | The pattern for memory shares accepts exactly the decimal numbers 1 to 100 with a percent sign. |
| GroupRouting.RenderResourceGroups | crates/stardelt-operator/src/access_sync_job.py:1254-1311 | The rendered document has the three root groups, one sub group and one selector for every class in order, the admin selector first and the catch-all last; what each group admits is `GroupRouting.CapsExactly`, where the catch-all leads is `GroupRouting.CatchAllExactly`. |
| GroupRouting.CatchAllExactly | crates/stardelt-operator/src/access_sync_job.py:1293-1300 | The catch-all leads to the group of a default class such that there is no other, and to `no-warehouse` exactly when there is no such class. |
| GroupRouting.CapsExactly | crates/stardelt-operator/src/access_sync_job.py:1275-1310 | Every class has a group of its name with the memory, concurrency and queue its spec says or its size has by default; all classes together have those of `global`; administrators have theirs; `no-warehouse` runs and queues nothing. |
| GroupRouting.PolicyExactly | crates/stardelt-operator/src/access_sync_job.py:227-235 | A class gets its scheduling policy, `fair` by default, and none for `fifo`. |
| GroupRouting.SameOrder | crates/stardelt-operator/src/access_sync_job.py:1275-1292 | Sub group and selector at the same place belong to the same class. |
| GroupRouting.RenderGroupsTxt | crates/stardelt-operator/src/access_sync_job.py:1328-1345 | The rendered text is one line for every group with members, the admin group first, the rest by name. |
| GroupRouting.FileRoundTrip | crates/stardelt-operator/src/access_sync_job.py:1328-1345 | Reading the text by lines, the first colon and commas gives back exactly the groups and users it was written from. |
| GroupRouting.RenderDeterministic | crates/stardelt-operator/src/access_sync_job.py:1254-1345 | Both renderers give the same for every order of the list they are given. |
| GroupRouting.RoutingCorrect | crates/stardelt-operator/src/access_sync_job.py:1254-1345 | End to end through both files: an administrator lands in `admin`; anybody else in the largest class granted to one of their groups, ties by least name; whoever has none in the class that is the only default, or in `no-warehouse` when there is no such class. |
| GroupRouting.RoutingExact | crates/stardelt-operator/src/access_sync_job.py:1254-1345 | Everybody is routed to where they belong if and only if the admin group's name is no warehouse group with members who are not administrators. |
| GroupRouting.RoutingBroken | crates/stardelt-operator/src/access_sync_job.py:1254-1345 | An admin group named like a warehouse group sends that warehouse's members to `admin`. |
| GroupRouting.BelongsUnique | crates/stardelt-operator/src/access_sync_job.py:1254-1311 | Where a person belongs is one place. |
| GroupRouting.TargetsExist | crates/stardelt-operator/src/access_sync_job.py:1254-1311 | The target of every selector is a group of the same document. |
| WarehouseSync.OneDefault | crates/stardelt-operator/src/access_sync_job.py:1200-1209 | No two default classes are rendered together. |
| WarehouseSync.Judge | crates/stardelt-operator/src/access_sync_job.py:1566-1593 | Every warehouse gets one verdict: the valid list and the invalid list are the listing without the others, in the API's order, and no name is in both. |
| WarehouseSync.PlanDeterministic | crates/stardelt-operator/src/access_sync_job.py:1566-1632 | Two listings of the same warehouses in different orders come to the same plan, both files and every status, so a reordered listing never causes a write. |
| WarehouseSync.ConvergeWarehouses | crates/stardelt-operator/src/access_sync_job.py:1566-1632 | A run that gets through leaves both files and every status as the plan of its input says: each rendered class shows `Ready` with its group and engine, each other one the rule it breaks and neither, and Trino, reading the two files as they are stored, sends everybody where they belong among the rendered classes; a run that finds them so sends nothing; without a failed call it gets through. |
| WarehouseSync.SettledRoutes | crates/stardelt-operator/src/access_sync_job.py:1566-1632 | Once both ConfigMaps hold what the tick wants, parsing their texts and routing by them sends everybody where they belong among the rendered classes, as long as the texts need no escape and the admin group is separate. |
| WarehouseSync.SettledStatus | crates/stardelt-operator/src/access_sync_job.py:1494-1563 | Then every class has a status that shows its phase, its group and engine or neither, and the rule it breaks if it is not rendered. |
| WarehouseSync.VerdictExactly | crates/stardelt-operator/src/access_sync_job.py:1577-1593 | A class is rendered exactly when it breaks no rule of its own, is not one of several defaults, and the realm has all its groups; otherwise the first of these is the reason. |
| WarehouseSync.MessageExactly | crates/stardelt-operator/src/access_sync_job.py:1585-1590 | The message of a class whose groups are not all in the realm names the first that is missing. |
| DocumentText.TextRoundTrip | crates/stardelt-operator/src/access_sync_job.py:1302-1311 | A reader of JSON that looks fields up by their keys gets the document back from its text: root groups, sub groups, limits, policies and selectors, each in its place. |
| DocumentText.ValueRound | crates/stardelt-operator/src/access_sync_job.py:1311-1311 | An indented dump of any value, with whatever follows it, parses to that value and leaves what follows. |
| PipelineOrder.Validate | crates/stardelt-operator/src/crd.rs:983-1041 | A pipeline passes if and only if its owner is a valid name, its task names differ, every query task has its query and no notebook rule is broken, every dependency is another task of it, no task repeats one, and the graph has no closed walk; a passing one has an order in which every task comes after its dependencies; each refusal names the first rule broken, and the last one, the circle, means exactly a cycle or a repeated dependency. |
| PipelineOrder.CheckOrder | crates/stardelt-operator/src/crd.rs:1013-1039 | The worklist ends, and it has popped every task exactly when the graph is acyclic and no dependency is repeated. |
| PipelineOrder.Place | crates/stardelt-operator/src/crd.rs:1026-1036 | Counters never go below zero and no task is pushed twice. |
| PipelineOrder.Decided | crates/stardelt-operator/src/crd.rs:1037-1039 | With the worklist empty the number popped tells an orderable graph from one that is not. |
| PipelineOrder.StuckHasCycle | crates/stardelt-operator/src/crd.rs:1012-1039 | Tasks that all wait for one another close a cycle. |
| PipelineOrder.OrderedIsAcyclic | crates/stardelt-operator/src/crd.rs:1012-1039 | A run order rules out every cycle. |
| PipelineOrder.CheckTasks | crates/stardelt-operator/src/crd.rs:992-1003 | The error is that of the first task that breaks a rule of its own. |
| PipelineOrder.SoundExactly | crates/stardelt-operator/src/crd.rs:992-1003 | No task breaks a rule of its own exactly when the names differ, every query task has its query, and no notebook rule is broken. |
| PipelineOrder.CheckDependencies | crates/stardelt-operator/src/crd.rs:1004-1011 | The error is that of the first dependency that is not another task. |
| PipelineOrder.RepeatIsNoCircle | crates/stardelt-operator/src/crd.rs:1013-1039 | A concrete pipeline without a cycle that is refused as a circle because a task names a dependency twice. |
| Base64Url.EncodeUrl | crates/stardelt-operator/src/keycloak.rs:139-160 | The two nested loops compute the encoding of the whole input. |
| Base64Url.EncodeBits | crates/stardelt-operator/src/keycloak.rs:139-160 | Read as section 5 of RFC 4648 defines it: every symbol stands for the next six bits of the input, zeros fill the last group, and `=` follows. |
| Base64Url.EncodeDecode | crates/stardelt-operator/src/keycloak.rs:139-160 | A strict decoder gives back every byte string from its encoding. |
| Base64Url.DecodeEncode | crates/stardelt-operator/src/keycloak.rs:139-160 | Whatever the strict decoder accepts is the encoding of what it decodes to. |
| Base64Url.Injective | crates/stardelt-operator/src/keycloak.rs:139-160 | Different byte strings have different encodings. |
| Base64Url.EncodeLength | crates/stardelt-operator/src/keycloak.rs:139-160 | The length is four for every three bytes, rounded up. |
| Base64Url.ValueOfSymbol | crates/stardelt-operator/src/keycloak.rs:139-140 | The alphabet of the source is the one RFC 4648 gives by ranges, without repetition and without `=`. |
| Base64Url.FernetKeyShape | crates/stardelt-operator/src/keycloak.rs:162-169 | 32 bytes come to 44 characters, of which only the last is padding. |
| Base64Url.Vectors | crates/stardelt-operator/src/keycloak.rs:139-160 | The vectors of section 10 of RFC 4648. |
| ConnectionPaths.GroupPlan | crates/stardelt-operator/src/connection.rs:52-162 | A valid group connection outside external mode reads a path under its own group, which among all groups only that group's store may read, through the store of that name; it is refused when its author names a path, and when its group's name cannot name a store. |
| ConnectionPaths.ManagedPlan | crates/stardelt-operator/src/connection.rs:52-162 | A managed connection outside external mode reads a path no group's store may read, through the store called `managed`, which a group shares exactly when it has that name; it is refused when its author names a path. |
| ConnectionPaths.StoreReadsPath | crates/stardelt-operator/src/secrets.rs:33-97 | Of every path a plan reads through the store of a group: that group's policy covers it exactly when the connection is the group's, otherwise the group is called `managed`; and no other group's policy covers it. |
| ConnectionPaths.PlanExactly | crates/stardelt-operator/src/connection.rs:76-162 | Which specs are refused and for which reason, which have no secret, and what is applied for the others: every key in its order, at the author's path in external mode and at the path derived from the scope in every other. |
| ConnectionPaths.DerivedOnly | crates/stardelt-operator/src/connection.rs:96-135 | Outside external mode whatever is applied is at the derived path, and its author named none. |
| ConnectionPaths.AcceptedExactly | crates/stardelt-operator/src/crd.rs:1220-1288 | A spec is accepted exactly when its name, the owner and users its scope asks for, its reference and its 1 to 16 different keys keep the rules. |
| ConnectionPaths.RemoteRefExactly | crates/stardelt-operator/src/crd.rs:1262-1267 | An accepted reference holds no `..` and no `//` anywhere. |
| ConnectionPaths.StoreTargetExactly | crates/stardelt-operator/src/connection.rs:60-69 | A store can be named after a group exactly when the name is 1 to 40 lower-case letters, digits and dashes without a dash at either end. |
| ConnectionPaths.GroupPath | crates/stardelt-operator/src/secrets.rs:33-44 | The policy of a group covers the path of a group connection if and only if it is the same group. |
| ConnectionPaths.PathsInjective | crates/stardelt-operator/src/crd.rs:1355-1362 | Two valid connections derive the same path only when scope, group and name agree. |
| ConnectionPaths.RoleNamesAgree | crates/stardelt-operator/src/secrets.rs:46-49 | Two groups share the name of policy and role if and only if they are the same group of the same namespace, or one namespace is the other, a dash, and the front of the other's group. |
| ConnectionPaths.RoleNamesCollide | crates/stardelt-operator/src/secrets.rs:46-49 | That happens for valid groups, but never within one namespace nor among namespaces without a dash. |
| ConnectionPaths.ExternalPlan | crates/stardelt-operator/src/connection.rs:99-113 | In external mode the path is the author's, free of `..` and `//`, through the enterprise store. |
| IssuerUrl.BaseRecovered | crates/stardelt-operator/src/jupyterhub_oidc.py:16-18 | Splitting the published issuer gives back the base domain if and only if it holds no `/`. |
| IssuerUrl.IssuerExactly | crates/stardelt-operator/src/identity.rs:108-128 | When there is an issuer, and that it is the platform's realm or the author's https URL without the slashes at its end. |
| IssuerUrl.HostsExactly | crates/stardelt-operator/src/identity.rs:150-160 | The instance's hosts are its domain and five different names under it. |
| IssuerUrl.CallbackAgrees | crates/stardelt-operator/src/identity.rs:109-155 | In platform mode without an override the hub's callback is on the operator's Jupyter host if and only if the domain is not empty and holds no `/`. |
| IssuerUrl.SchemaDomains | crates/stardelt-operator/src/identity.rs:109-155 | That is so for every domain the schema accepts. |
| IssuerUrl.ExternalCallback | crates/stardelt-operator/src/identity.rs:116-127 | In external mode, for every `https://` issuer and whatever path it has, the derived callback is on the operator's Jupyter host if and only if the issuer's host less its first label is the base domain, and not empty. |
| IssuerUrl.ProviderCallback | crates/stardelt-operator/src/jupyterhub_oidc.py:16-21 | For an issuer on a host under a provider's domain, with any path, the hub takes that domain for its base. |
| IssuerUrl.EntraCallback | examples/platforminstance-external-entra.yaml:14-19 | The repository's own external example: the checklist registers a callback under `data.example.com`, the hub registers one under `microsoftonline.com`. |
| IssuerUrl.Configuration.Configure | crates/stardelt-operator/src/jupyterhub_oidc.py:3-23 | The fields the script sets, and when it sets none: an override wins, else the derived callback, else nothing. |
| IssuerUrl.HubOf | crates/stardelt-operator/src/jupyterhub_oidc.py:3-23 | From the instance to the hub: the callback that ends up registered. |
| LakehouseOwnership.OneOwner | crates/stardelt-operator/src/controller.rs:863-923 | In every state reachable with an up-to-date watch cache at most one Lakehouse holds the finalizer, the oldest; only that one applies releases; and one that uninstalls them is that one if and only if it carried the finalizer when it was fetched. |
| LakehouseOwnership.OneHolder | crates/stardelt-operator/src/controller.rs:863-923 | Whatever versions of objects reconciles start with, current, old or gone, at most one Lakehouse holds the finalizer, and it is the oldest. |
| LakehouseOwnership.Handover | crates/stardelt-operator/src/controller.rs:877-923 | Another Lakehouse holds the finalizer only after the earlier holder was gone altogether. |
| LakehouseOwnership.Exclusive | crates/stardelt-operator/src/controller.rs:770-923 | As long as every uninstall was started by a holder, at most one reconcile touches the namespace's releases at a time. |
| LakehouseOwnership.StepKeeps | crates/stardelt-operator/src/controller.rs:692-713 | Every request of a reconcile, and every move of anybody else, keeps the invariant. |
| LakehouseOwnership.Reachable | crates/stardelt-operator/src/controller.rs:863-923 | The invariant holds in every state of every run. |
| LakehouseOwnership.BlockedUninstalls | crates/stardelt-operator/src/controller.rs:863-871 | A concrete run: a blocked Lakehouse that is deleted while another finalizer holds it uninstalls the releases its owner is applying. |
| LakehouseOwnership.NameReuseBreaks | crates/stardelt-operator/src/controller.rs:673-713 | A concrete run: a name used again while a reconcile of its former bearer is in flight lets two Lakehouses hold the finalizer. |
| LakehouseOwnership.SameSecondBreaks | crates/stardelt-operator/src/controller.rs:880-887 | A concrete run: of two Lakehouses created in the same second the younger one's name sorts first, and both hold the finalizer. Only its creation breaks the premise on keys. |
| LakehouseOwnership.StaleApplies | crates/stardelt-operator/src/controller.rs:692-700 | A concrete run: a reconcile that starts with a Lakehouse as it was before it went applies releases that nobody holds. |
| LakehouseOwnership.StaleUninstalls | crates/stardelt-operator/src/controller.rs:863-871 | A concrete run: a reconcile that starts with a deleted Lakehouse as it was before it went uninstalls the releases its successor is applying, so the rest of `OneOwner` needs the up-to-date cache. |
| HelmRelease.Args | crates/stardelt-operator/src/helm.rs:40-90 | The pushes build the argument list of `HelmRelease.Arguments`; what Helm reads from it is `HelmRelease.ArgumentsRead`. |
| HelmRelease.ArgumentsRead | crates/stardelt-operator/src/helm.rs:40-90 | A reader of command lines that takes flags anywhere finds the command, the release and the chart in this order, every `--set` in its order as key and value, the switches, and each flag with its value exactly when the release asks for it; names that begin with a dash aside. |
| HelmRelease.ChartExactly | crates/stardelt-operator/src/helm.rs:41-51 | Without a repository the chart is named by its whole path, with one by what follows the last `/`. |
| HelmRelease.FingerprintDetermines | crates/stardelt-operator/src/helm.rs:112-120 | Equal fingerprints are equal upgrades: release, chart, repository, version, namespace, settings, values, and both dry runs or neither. |
| HelmRelease.ArgumentsMarked | crates/stardelt-operator/src/helm.rs:35-37 | The arguments of every upgrade give Helm the marker as the description; whether a failed upgrade records it is Helm's affair. |
| HelmCluster.Cluster.Upgrade | crates/stardelt-operator/src/helm.rs:40-90 | A successful upgrade is deployed and marked; a failed one leaves nothing, or one revision that is not deployed, with or without the marker; a dry run changes nothing; no other release changes; and the account of unmarked releases stays right. |
| HelmCluster.LedgerUpgrade | crates/stardelt-operator/src/helm.rs:158-162 | A release with no marked revision whose upgrade failed and recorded an unmarked one is put on the account, and any other upgrade that recorded something takes it off; then, after every upgrade, a release looks foreign if and only if it was found here and never touched, or is on the account. |
| HelmCluster.LedgerUninstall | crates/stardelt-operator/src/controller.rs:785-832 | The same after an uninstall. |
| ReleasePass.PassPointwise | crates/stardelt-operator/src/controller.rs:491-621 | A pass over a plan with distinct names treats every component as if it had been the only one, for every outcome of every request, and touches no other release. |
| ReleasePass.ApplyExactly | crates/stardelt-operator/src/controller.rs:491-618 | What a pass does with a component: skipped exactly when a record says it was ready with this very upgrade and Helm reports it deployed; left alone exactly when its history was read, has no marked revision and `adopt` is off; otherwise upgraded, and ready exactly when the upgrade succeeded and it has workloads and all are ready. |
| ReleasePass.ReadyBecause | crates/stardelt-operator/src/controller.rs:541-602 | A component says ready only when all its workloads were found ready just now, or a record says it was ready with the same fingerprint. |
| ReleaseRecords.PassGrows | crates/stardelt-operator/src/controller.rs:491-621 | A pass only adds revisions, and only to planned releases. |
| ReleaseRecords.GrownKeepsOwned | crates/stardelt-operator/src/helm.rs:158-162 | A release with a marked revision keeps one when revisions are added. |
| ReleaseRecords.ForeignTouched | crates/stardelt-operator/src/controller.rs:559-578 | Without `adopt` a pass touches a planned release that looks foreign if and only if it is no dry run, the component is not skipped, the history could not be read, and the upgrade left a revision. |
| ReleaseRecords.PassKeepsForeign | crates/stardelt-operator/src/controller.rs:559-578 | So whatever looks foreign is as it was, but for releases whose history could not be read. |
| ReleaseRecords.PassKnown | crates/stardelt-operator/src/controller.rs:580-618 | What was last upgraded with success is, for every release, what the pass upgraded, or what it was before; and what the pass upgraded runs and is recognised as the operator's. |
| ReleaseRecords.SkipExact | crates/stardelt-operator/src/controller.rs:540-557 | Skipping an unchanged, deployed component is right if and only if no upgrade to another fingerprint was made in a pass whose status was not written. |
| ReleaseRecords.HashRuns | crates/stardelt-operator/src/controller.rs:540-602 | A hash that a pass reports is that of the running release if and only if the pass upgraded it, or no other upgrade of it was lost. |
| ReleaseRecords.ReliableAfter | crates/stardelt-operator/src/controller.rs:540-602 | Over every pass, written or not, the records tell the truth about every component outside the account of lost upgrades, and of those the lost upgrade is the last one; a name leaves the account when a written pass upgrades it. |
| ReleaseRecords.PassReaches | crates/stardelt-operator/src/controller.rs:516-621 | A component whose upgrade did not fail runs what was asked for, or looked foreign and was left alone, or was skipped with another upgrade lost. |
| ReleaseRecords.ReadyRuns | crates/stardelt-operator/src/controller.rs:623-635 | A Lakehouse that says `Ready` consists of charts, and each runs what was asked for if and only if this pass upgraded it or no other upgrade of it was lost. |
| ReleaseRecords.PhaseExactly | crates/stardelt-operator/src/controller.rs:623-635 | Each phase is reported exactly when it should be: `Degraded` when values did not resolve, `Planned` for a dry run, `Ready` when every component is, `Progressing` when one is not. |
| ReleaseRecords.PassReady | crates/stardelt-operator/src/controller.rs:541-602 | Over a whole pass: what is reported ready had all its workloads ready after an upgrade of this pass, or was ready with the same fingerprint by an earlier record, and is deployed. |
| ReleaseRecords.ReadyStays | crates/stardelt-operator/src/controller.rs:541-557 | After a pass in which everything was ready, the next pass over the same plan upgrades nothing and reports everything ready again, as long as Helm's statuses can be read. |
| ReleasePass.UninstallPointwise | crates/stardelt-operator/src/controller.rs:785-832 | A deletion treats every component it comes to as if it had been the only one, and touches no other release. |
| ReleaseRuns.EventActs | crates/stardelt-operator/src/controller.rs:474-861 | What a pass or a deletion, however its requests went, makes of a release is what one action on that release makes of it. |
| ReleaseRuns.RecognisedExactly | crates/stardelt-operator/src/helm.rs:158-162 | Over every sequence of passes and deletions a release is recognised as the operator's own if and only if, since it was last taken away, an upgrade left a marked revision, or it had one to begin with and was never taken away. |
| ReleaseRuns.StaysRecognised | crates/stardelt-operator/src/controller.rs:559-561 | Once recognised, a release stays so over any interleaving until a deletion whose plan names it. |
| ReleaseRuns.OwnedKept | crates/stardelt-operator/src/controller.rs:559-561 | A release owned at the start of a run is owned at its end, unless a deletion in between names it. |
| ReleaseRuns.LostOnlySo | crates/stardelt-operator/src/controller.rs:559-561 | A release that looks foreign at the end of a run and did not at its start was on the way upgraded without success while it had no marked revision, and that upgrade left an unmarked one. |
| ReleaseRuns.ReliableRun | crates/stardelt-operator/src/controller.rs:540-602 | Over every run the records stay reliable outside the account of lost upgrades. |
| ReleaseRuns.NothingLost | crates/stardelt-operator/src/controller.rs:540-602 | While every status is written no upgrade is lost, whatever else fails. |
| ReleaseRuns.TruthfulRun | crates/stardelt-operator/src/controller.rs:540-602 | So over any sequence of passes whose statuses are written every record tells the truth. |
| ReleaseRuns.ReadySince | crates/stardelt-operator/src/controller.rs:541-602 | Over every run: whatever a record says is ready was at some moment of the run upgraded with success to the fingerprint it records and found with all its workloads ready, or was recorded so at the start. |
| ReleaseRuns.SkipDiffers | crates/stardelt-operator/src/controller.rs:540-557 | One pass with and without skipping: the last successful upgrade of a component is the same, except exactly where it is skipped with another upgrade lost and applying it would have succeeded. |
| ReleaseRuns.SkippingRefines | crates/stardelt-operator/src/controller.rs:540-557 | Any run whose skips are trusted, against the same run without skipping, whatever fails in them: the same releases exist, the same upgrade of each was the last to succeed, the same ones look foreign, and what is deployed without skipping is deployed with it; the other way round as well when no upgrade failed. |
| ReleaseRuns.WrittenRefines | crates/stardelt-operator/src/controller.rs:540-557 | While every status is written, whatever the same passes would leave running without skipping runs, and exactly that when no upgrade fails. |
| ReleaseRuns.LeftBehind | crates/stardelt-operator/src/controller.rs:774-832 | A deletion that came to its end leaves exactly those of the operator's own releases that it does not take: all of them in a dry run, else those without a component in its plan. |
| ReleaseRuns.NothingLeft | crates/stardelt-operator/src/controller.rs:774-832 | After a run and a deletion that came to its end none of the operator's own releases is left if and only if the deletion is no dry run and its plan has a component for every release the run leaves recognised. |
| ReleaseLimits.UnmarkedExactly | crates/stardelt-operator/src/controller.rs:559-561 | A first upgrade leaves a release the operator will not recognise if and only if it failed and left a revision without the marker. |
| ReleaseLimits.FailedInstallLocksOut | crates/stardelt-operator/src/controller.rs:559-578 | After such a failed first install every pass without `adopt` that reads the history leaves the release alone, and a deletion counts it as gone while it is still there. |
| ReleaseLimits.ForeignUninstalled | crates/stardelt-operator/src/controller.rs:800-815 | A deletion without `adopt` takes a release that looks foreign away if and only if its history could not be read and the uninstall got through. |
| ReleaseLimits.BlindTakeover | crates/stardelt-operator/src/controller.rs:559-578 | One history that cannot be read, and a successful upgrade makes a foreign release run the operator's chart and count as its own. |
| ReleaseLimits.LostStatusSkips | crates/stardelt-operator/src/controller.rs:540-557 | Three passes in which nothing fails but one status write: the third is asked for `a`, skips it and says `Ready`, while `b` runs. |
| ReleaseLimits.EditedToDryRun | crates/stardelt-operator/src/controller.rs:774-783 | A Lakehouse that was applied and then edited to `dryRun: true`: its deletion comes to its end with the release still running. |
| ReleaseLimits.DroppedFromPlan | crates/stardelt-operator/src/controller.rs:785-789 | A component taken out of the plan before the deletion keeps running. |
| LakehouseReleases.Guard | crates/stardelt-operator/src/controller.rs:540-578 | A component is skipped exactly when a record says it was ready with this very upgrade and Helm reports it deployed, left alone exactly when its history was read, has no marked revision and `adopt` is off, and an unread history of an existing release is noted. |
| LakehouseReleases.ApplyRelease | crates/stardelt-operator/src/controller.rs:463-471 | A component counts as ready exactly when it has workloads and all of them are ready; its hash is recorded only for an upgrade that succeeded. |
| LakehouseReleases.ApplyChart | crates/stardelt-operator/src/controller.rs:516-621 | One component: its report and its release are what the specification of a pass gives for the answers its requests got. |
| LakehouseReleases.ApplyPlan | crates/stardelt-operator/src/controller.rs:474-621 | The loop computes the pass that is specified, for answers that are accounted for: every failed upgrade is a fault and every unread history is noted; a release looks foreign afterwards if and only if it was found and never touched or a failed upgrade left it unmarked, and without a failed upgrade no further one is left so; without `adopt` what looked foreign is as it was, as far as its history was read. |
| LakehouseReleases.Owner.Reconcile | crates/stardelt-operator/src/controller.rs:919-1088 | Nothing is applied before the finalizer is there; releases, statuses and the account of lost upgrades become what the pass, as it went, makes of them; the phase says what it should; every component reported ready had all its workloads ready after its upgrade in this pass, or was recorded ready with the same fingerprint; a component no other upgrade of which was lost runs what was asked for when the phase is `Ready`, and runs it or looked foreign when no request failed. |
| LakehouseReleases.UninstallComponent | crates/stardelt-operator/src/controller.rs:785-832 | One component of the deletion: its release goes, stays, or stays because it looks foreign, as the answers say, and a success leaves none of the operator's. |
| LakehouseReleases.UninstallAll | crates/stardelt-operator/src/controller.rs:785-832 | Uninstalls run in reverse order; the first failure leaves every earlier component untouched and every later one gone; what looks foreign stays. |
| LakehouseReleases.DeleteData | crates/stardelt-operator/src/controller.rs:735-758 | Only labelled volumes go, none unless the object store is the platform's, and the database only after all of them. |
| LakehouseReleases.Owner.Delete | crates/stardelt-operator/src/controller.rs:770-861 | The finalizer goes only when the uninstalls came to their end, so every release of the plan but those that look foreign is gone and, under `Delete`, the labelled volumes and the database are; what looks foreign is exactly what was found and never touched or left unmarked by a failed upgrade; data goes only after the releases; `Retain` and dry runs keep all data; an attempt without a failed request finishes. |
| LakehouseReleases.Owner.DeleteBesideForeign | crates/stardelt-operator/src/controller.rs:735-758 | With a storage release somebody else installed, an attempt without a failed request leaves the release, and every labelled volume stays if and only if it is a dry run, the policy is `Retain`, or the object store is not the platform's. |
| LakehouseReleases.Owner.DeleteWithRetries | crates/stardelt-operator/src/controller.rs:770-861 | The same over any number of attempts, whatever fails in them; a finalizer that is still there means a failed request in every attempt, so one without a fault finishes. |
| LakehouseReleases.RunPasses | crates/stardelt-operator/src/controller.rs:474-861 | Any interleaving of apply and delete passes, failing anywhere, ends in the state its events lead to. A release the operator owns stays its own unless a deletion names it. While every status is written, whatever else fails, no upgrade is lost and, with none lost before, every record is true and whatever the same passes would leave running without skipping runs. Whatever is recorded as ready was, at some moment of the run, upgraded with success to what is recorded and found with all its workloads ready. A release looks foreign if and only if it was found and never touched or a failed upgrade left it unmarked. Without `adopt` what looked foreign is as it was, as far as its history was read. |

## Left out

- HTTP, tokens, TLS, paging of listings, the reading of Secrets and all logging of the access sync: each is a request that may fail.
- Roles inside roles, and the relations of Lakekeeper beyond the ones the job writes and `ownership`.
- Texts of verdicts and messages are shorter than the original's, and names that JSON would have to escape are not modelled; statuses are compared on whatever text they carry.
- The order in which sets are walked where the result does not depend on it, and the time stamps of conditions and of the table.
- A write to Kubernetes between the GET and the PATCH of a status or a ConfigMap; Kubernetes objects are changed by this job alone.
- The warehouse body the job posts, storage credentials, and the list of orphan warehouses it prints.
- Trino's regular expressions: a `userGroup` matches the one group it names, which is what the renderer's identity-first rule intends.
- AccessJob.Job.SyncAssignees: the counts it returns are not specified, because nothing but a log line uses them.
- AccessTick.Tick: exactness, coverage and the fixed point are stated for ticks during which no other client writes; soundness is stated without that condition.
- DocumentText.TextRoundTrip: texts that JSON would have to escape are left out, as they are from the renderer.
- WarehouseSync.SettledRoutes: stated for texts that need no escape and names without a colon, which is what the rules for names and the realm allow.
- HelmRelease.ArgumentsRead: a release or chart whose name begins with a dash would be read as a flag; the planner has none.
- AccessTable.ManagerIsBacked: one direction only, because the list holds the owner group and not everybody Lakekeeper would let manage grants.
- LakehouseReleases.Owner.Delete: a foreign release whose history could not be read may be uninstalled, and a release of the operator that a failed install left unmarked stays, both as in the original.
- LakehouseReleases.Owner.Reconcile: the plan is the one left after components that wait for a database or for key material were taken out; the statuses of everything beside the charts are left out, and they only keep the phase from being `Ready`.
- The watch cache of the controller, requeue times, the conditions of a Lakehouse's status, and the Kubernetes objects created beside the Helm releases.
- Helm's limit on stored revisions, and hash collisions: a fingerprint is the pair it is computed from.
- Values resolution and `--set` overrides by component: their results are inputs. The listing of workloads and the JSON that Helm prints are read as values.
- Pipeline rules of notebook tasks, connection rules of `config`, type and refresh interval: their verdicts are inputs.
- The JupyterHub client secret, its spawner environment and its token hook.
- Random generation of keys; `generate_fernet_key` is its shape.
- Object builders, CRD schemas, `planner.rs`, provisioning, the ingestion, Superset, Airflow and streaming code: constant data or short branch lists without a property across steps.
