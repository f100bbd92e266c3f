/** The Kubernetes objects the access sync writes: the statuses of Catalogs and
    SqlWarehouses, and two ConfigMaps. Reads and patches may fail at any time. */
module KubeApi {
  import opened Json
  import opened StatusPatch
  import opened Text

  const CATALOG_CONDITIONS: set<string> := {"CatalogReady", "GrantsReady", "Drift"}
  const WAREHOUSE_CONDITIONS: set<string> := {"Rendered"}

  /** `Done(written)` returns to the caller; `Failed` ends the tick. */
  datatype Outcome = Done(written: bool) | Failed

  /** The `grants` argument of `patch_status`. */
  datatype GrantReport = GrantReport(ready: bool, reason: string, message: string, drift: nat)

  function DriftReport(drift: nat): Report {
    if drift > 0 then
      Report("Drift", true, "ForeignGrants",
             Decimal(drift) + " grant(s) on this warehouse belong to subjects the sync does not manage")
    else
      Report("Drift", false, "Clean", "no grant on this warehouse belongs to another subject")
  }

  function JsonText(text: Option<string>): Json {
    if text.Some? then Str(text.value) else Null
  }

  function CatalogFields(phase: string, warehouseId: Option<string>): (fields: map<string, Json>)
    ensures forall k | k in fields :: !fields[k].Obj? && k != "observedGeneration" && k != "conditions"
  {
    map["phase" := Str(phase), "warehouseId" := JsonText(warehouseId)]
  }

  function CatalogReports(ready: bool, reason: string, message: string, grants: Option<GrantReport>)
    : (reports: seq<Report>)
    ensures forall i | 0 <= i < |reports| :: reports[i].kind in CATALOG_CONDITIONS
  {
    [Report("CatalogReady", ready, reason, message)]
    + (if grants.Some? then
         [Report("GrantsReady", grants.value.ready, grants.value.reason, grants.value.message),
          DriftReport(grants.value.drift)]
       else [])
  }

  /** What `patch_status` wants a Catalog's status to say. */
  function CatalogWanted(phase: string, warehouseId: Option<string>, reason: string, message: string,
                         grants: Option<GrantReport>): (w: Wanted)
    ensures WellFormed(w, CATALOG_CONDITIONS)
  {
    Wanted(CatalogFields(phase, warehouseId), CatalogReports(phase == "Ready", reason, message, grants))
  }

  /** What `patch_warehouse_status` wants a SqlWarehouse's status to say. */
  function WarehouseWanted(phase: string, group: Option<string>, engine: Option<string>,
                           reason: string, message: string): (w: Wanted)
    ensures WellFormed(w, WAREHOUSE_CONDITIONS)
  {
    Wanted(map["phase" := Str(phase), "renderedGroup" := JsonText(group), "engine" := JsonText(engine)],
           [Report("Rendered", phase == "Ready", reason, message)])
  }

  /** The Catalog's phase and warehouse id, for its present generation. */
  predicate CatalogHead(resource: Json, phase: string, warehouseId: Json) {
    && Get(Get(resource, "status"), "phase") == Str(phase)
    && Get(Get(resource, "status"), "warehouseId") == warehouseId
    && Get(Get(resource, "status"), "observedGeneration") == Get(Get(resource, "metadata"), "generation")
  }

  /** The conditions of a Catalog that `patch_status` owns. */
  function CatalogConditions(resource: Json): seq<Json> {
    Side(Items(Get(resource, "status"), "conditions"), CATALOG_CONDITIONS, true)
  }

  /** A condition of this type, verdict and reason, for the object's present generation. */
  ghost predicate Reads(resource: Json, condition: Json, kind: string, ok: bool, reason: string) {
    exists message ::
      Tells(condition, Report(kind, ok, reason, message), Get(Get(resource, "metadata"), "generation"))
  }

  lemma HeadTells(resource: Json, phase: string, warehouseId: Option<string>, reason: string, message: string,
                  grants: Option<GrantReport>)
    requires StatusTells(resource, CatalogWanted(phase, warehouseId, reason, message, grants), CATALOG_CONDITIONS)
    ensures CatalogHead(resource, phase, JsonText(warehouseId))
  {
    var fields := CatalogFields(phase, warehouseId);
    assert "phase" in fields && "warehouseId" in fields && |"phase"| != |"warehouseId"|;
    assert fields["phase"] == Str(phase) && fields["warehouseId"] == JsonText(warehouseId);
  }

  predicate IsReport(r: Report, kind: string, ok: bool, reason: string) {
    r.kind == kind && r.ok == ok && r.reason == reason
  }

  lemma ReportTold(resource: Json, condition: Json, r: Report, kind: string, ok: bool, reason: string)
    requires Tells(condition, r, Get(Get(resource, "metadata"), "generation")) && IsReport(r, kind, ok, reason)
    ensures Reads(resource, condition, kind, ok, reason)
  {
    assert r == Report(kind, ok, reason, r.message);
  }

  lemma DriftSays(drift: nat)
    ensures IsReport(DriftReport(drift), "Drift", drift > 0, if drift > 0 then "ForeignGrants" else "Clean")
  {
  }

  lemma ReportsAre(ready: bool, reason: string, message: string, grants: GrantReport)
    ensures var reports, foreign := CatalogReports(ready, reason, message, Some(grants)), grants.drift > 0;
      && |reports| == 3 && IsReport(reports[0], "CatalogReady", ready, reason)
      && IsReport(reports[1], "GrantsReady", grants.ready, grants.reason)
      && IsReport(reports[2], "Drift", foreign, if foreign then "ForeignGrants" else "Clean")
    ensures var reports := CatalogReports(ready, reason, message, None);
      |reports| == 1 && IsReport(reports[0], "CatalogReady", ready, reason)
  {
    DriftSays(grants.drift);
    assert CatalogReports(ready, reason, message, Some(grants)) ==
      [Report("CatalogReady", ready, reason, message),
       Report("GrantsReady", grants.ready, grants.reason, grants.message), DriftReport(grants.drift)];
  }

  lemma ConditionsTell(resource: Json, phase: string, warehouseId: Option<string>, reason: string, message: string,
                       grants: GrantReport)
    requires StatusTells(resource, CatalogWanted(phase, warehouseId, reason, message, Some(grants)), CATALOG_CONDITIONS)
    ensures var ours, foreign := CatalogConditions(resource), grants.drift > 0;
      && |ours| == 3 && Reads(resource, ours[0], "CatalogReady", phase == "Ready", reason)
      && Reads(resource, ours[1], "GrantsReady", grants.ready, grants.reason)
      && Reads(resource, ours[2], "Drift", foreign, if foreign then "ForeignGrants" else "Clean")
  {
    var ours, foreign := CatalogConditions(resource), grants.drift > 0;
    var reports := CatalogReports(phase == "Ready", reason, message, Some(grants));
    ReportsAre(phase == "Ready", reason, message, grants);
    ReportTold(resource, ours[0], reports[0], "CatalogReady", phase == "Ready", reason);
    ReportTold(resource, ours[1], reports[1], "GrantsReady", grants.ready, grants.reason);
    ReportTold(resource, ours[2], reports[2], "Drift", foreign, if foreign then "ForeignGrants" else "Clean");
  }

  lemma OneConditionTells(resource: Json, phase: string, reason: string, message: string)
    requires StatusTells(resource, CatalogWanted(phase, None, reason, message, None), CATALOG_CONDITIONS)
    ensures var ours := CatalogConditions(resource);
      |ours| == 1 && Reads(resource, ours[0], "CatalogReady", phase == "Ready", reason)
  {
    var reports := CatalogReports(phase == "Ready", reason, message, None);
    ReportTold(resource, CatalogConditions(resource)[0], reports[0], "CatalogReady", phase == "Ready", reason);
  }

  /** What a SqlWarehouse's status shows: its phase, group and engine, and the one condition
      `patch_warehouse_status` owns. */
  ghost predicate WarehouseShows(resource: Json, phase: string, group: Json, engine: Json, ok: bool, reason: string) {
    var status := Get(resource, "status");
    var ours := Side(Items(status, "conditions"), WAREHOUSE_CONDITIONS, true);
    && Get(status, "phase") == Str(phase) && Get(status, "renderedGroup") == group && Get(status, "engine") == engine
    && Get(status, "observedGeneration") == Get(Get(resource, "metadata"), "generation")
    && |ours| == 1 && Reads(resource, ours[0], "Rendered", ok, reason)
  }

  lemma WarehouseTells(resource: Json, phase: string, group: Option<string>, engine: Option<string>, reason: string,
                       message: string)
    requires StatusTells(resource, WarehouseWanted(phase, group, engine, reason, message), WAREHOUSE_CONDITIONS)
    ensures WarehouseShows(resource, phase, JsonText(group), JsonText(engine), phase == "Ready", reason)
  {
    var fields := WarehouseWanted(phase, group, engine, reason, message).fields;
    WarehouseFieldsHold(phase, group, engine, reason, message);
    assert "phase" in fields && "renderedGroup" in fields && "engine" in fields;
    var ours := Side(Items(Get(resource, "status"), "conditions"), WAREHOUSE_CONDITIONS, true);
    ReportTold(resource, ours[0], Report("Rendered", phase == "Ready", reason, message), "Rendered", phase == "Ready",
               reason);
  }

  lemma WarehouseFieldsHold(phase: string, group: Option<string>, engine: Option<string>, reason: string,
                            message: string)
    ensures var fields := WarehouseWanted(phase, group, engine, reason, message).fields;
      && "phase" in fields && fields["phase"] == Str(phase)
      && "renderedGroup" in fields && fields["renderedGroup"] == JsonText(group)
      && "engine" in fields && fields["engine"] == JsonText(engine)
  {
    assert |"phase"| == 5 && |"renderedGroup"| == 13 && |"engine"| == 6;
  }

  /** One status write as the API server sees it: a PATCH of `before`, or nothing. */
  ghost predicate StatusStep(before: Json, after: Json, w: Wanted, owned: set<string>) {
    after == before || exists now :: after == Patched(before, w, owned, now)
  }

  /** The time of a write; nothing depends on it. */
  method Clock() returns (now: string) {
    now := *;
  }

  /** The body shared by `patch_status` and `patch_warehouse_status`. */
  method ConvergeStatus(live: Json, w: Wanted, owned: set<string>)
    returns (outcome: Outcome, after: Json, requests: nat)
    requires IsResource(live) && WellFormed(w, owned)
    ensures IsResource(after) && StatusStep(live, after, w, owned)
    ensures outcome.Done? ==> StatusTells(after, w, owned) && outcome.written == !StatusTells(live, w, owned)
    ensures StatusTells(live, w, owned) ==> after == live && requests == 0
    ensures Side(LiveConditions(after), owned, false) == Side(LiveConditions(live), owned, false)
  {
    after, requests := live, 0;
    MatchesExactly(live, w, owned);
    var read: bool := *;
    if !read { return Failed, live, 0; }
    if Matches(live, w, owned) { return Done(false), live, 0; }
    var now := Clock();
    var applied: bool := *;
    requests := 1;
    if applied {
      PatchThenMatches(live, w, owned, now);
      PatchKeepsForeign(live, w, owned, now);
      after := Patched(live, w, owned, now);
      assert StatusStep(live, after, w, owned);
    }
    var accepted: bool := *;
    outcome := if applied && accepted then Done(true) else Failed;
  }

  /** The object of this name already says what is wanted. */
  predicate Says(objects: map<string, Json>, name: string, w: Wanted, owned: set<string>) {
    name in objects && StatusTells(objects[name], w, owned)
  }

  lemma ResourcesAfter(objects: map<string, Json>, name: string, after: Json)
    requires (forall n :: n in objects ==> IsResource(objects[n])) && name in objects && IsResource(after)
    ensures var now := objects[name := after];
      && (forall n :: n in now ==> IsResource(now[n]))
      && now.Keys == objects.Keys && now[name] == after && now == objects[name := now[name]]
      && (after == objects[name] ==> now == objects)
  {
  }

  type ConfigMaps = map<string, map<string, string>>

  /** The ConfigMap of this name already holds this text; an absent key reads as empty. */
  predicate Holds(files: ConfigMaps, name: string, key: string, text: string) {
    name in files && (if key in files[name] then files[name][key] else "") == text
  }

  class Kube {
    var catalogs: map<string, Json>
    var sqlWarehouses: map<string, Json>
    /** ConfigMap name -> key -> text. */
    var configMaps: ConfigMaps
    /** The PATCH requests sent so far. */
    ghost var writes: nat
    /** The reads and writes so far that failed. */
    ghost var faults: nat

    ghost predicate Valid()
      reads this
    {
      && (forall n :: n in catalogs ==> IsResource(catalogs[n]))
      && (forall n :: n in sqlWarehouses ==> IsResource(sqlWarehouses[n]))
    }

    constructor (catalogs: map<string, Json>, sqlWarehouses: map<string, Json>, configMaps: ConfigMaps)
      requires forall n :: n in catalogs ==> IsResource(catalogs[n])
      requires forall n :: n in sqlWarehouses ==> IsResource(sqlWarehouses[n])
      ensures Valid() && this.catalogs == catalogs && this.sqlWarehouses == sqlWarehouses
      ensures this.configMaps == configMaps && writes == 0 && faults == 0
    {
      this.catalogs, this.sqlWarehouses, this.configMaps, writes, faults := catalogs, sqlWarehouses, configMaps, 0, 0;
    }

    /** Nothing was written. */
    twostate predicate Unwritten()
      reads this
    {
      && catalogs == old(catalogs) && sqlWarehouses == old(sqlWarehouses)
      && configMaps == old(configMaps) && writes == old(writes)
    }

    predicate CatalogSays(name: string, w: Wanted)
      reads this
    {
      Says(catalogs, name, w, CATALOG_CONDITIONS)
    }

    predicate WarehouseSays(name: string, w: Wanted)
      reads this
    {
      Says(sqlWarehouses, name, w, WAREHOUSE_CONDITIONS)
    }

    predicate FileSays(name: string, key: string, text: string)
      reads this
    {
      Holds(configMaps, name, key, text)
    }

    /** `patch_status`, given what it wants to say. */
    method PatchStatus(name: string, w: Wanted) returns (outcome: Outcome)
      requires Valid() && WellFormed(w, CATALOG_CONDITIONS)
      modifies this`catalogs, this`writes, this`faults
      ensures Valid() && faults == old(faults) + if outcome.Done? then 0 else 1
      ensures outcome.Done? ==> CatalogSays(name, w)
      ensures old(CatalogSays(name, w)) ==> catalogs == old(catalogs) && writes == old(writes)
      ensures name !in old(catalogs) ==> catalogs == old(catalogs)
      ensures name in old(catalogs) ==>
        catalogs.Keys == old(catalogs).Keys && catalogs == old(catalogs)[name := catalogs[name]] &&
        StatusStep(old(catalogs)[name], catalogs[name], w, CATALOG_CONDITIONS)
    {
      if name !in catalogs {
        faults := faults + 1;
        return Failed;
      }
      var after, requests;
      outcome, after, requests := ConvergeStatus(catalogs[name], w, CATALOG_CONDITIONS);
      ResourcesAfter(catalogs, name, after);
      catalogs, writes := catalogs[name := after], writes + requests;
      if outcome.Failed? { faults := faults + 1; }
    }

    /** `patch_warehouse_status`, given what it wants to say. */
    method PatchWarehouseStatus(name: string, w: Wanted) returns (outcome: Outcome)
      requires Valid() && WellFormed(w, WAREHOUSE_CONDITIONS)
      modifies this`sqlWarehouses, this`writes, this`faults
      ensures Valid() && faults == old(faults) + if outcome.Done? then 0 else 1
      ensures outcome.Done? ==> WarehouseSays(name, w)
      ensures old(WarehouseSays(name, w)) ==> sqlWarehouses == old(sqlWarehouses) && writes == old(writes)
      ensures name !in old(sqlWarehouses) ==> sqlWarehouses == old(sqlWarehouses)
      ensures name in old(sqlWarehouses) ==>
        sqlWarehouses.Keys == old(sqlWarehouses).Keys &&
        sqlWarehouses == old(sqlWarehouses)[name := sqlWarehouses[name]] &&
        StatusStep(old(sqlWarehouses)[name], sqlWarehouses[name], w, WAREHOUSE_CONDITIONS)
    {
      if name !in sqlWarehouses {
        faults := faults + 1;
        return Failed;
      }
      var after, requests;
      outcome, after, requests := ConvergeStatus(sqlWarehouses[name], w, WAREHOUSE_CONDITIONS);
      ResourcesAfter(sqlWarehouses, name, after);
      sqlWarehouses, writes := sqlWarehouses[name := after], writes + requests;
      if outcome.Failed? { faults := faults + 1; }
    }

    /** `converge_configmap`: write one key when it differs from the live one. */
    method ConvergeConfigMap(name: string, key: string, text: string) returns (outcome: Outcome)
      requires Valid()
      modifies this`configMaps, this`writes, this`faults
      ensures Valid() && faults == old(faults) + if outcome.Done? then 0 else 1
      ensures outcome.Done? ==> FileSays(name, key, text)
      ensures old(FileSays(name, key, text)) ==> configMaps == old(configMaps) && writes == old(writes)
      ensures configMaps == old(configMaps) ||
        (name in old(configMaps) && configMaps == old(configMaps)[name := old(configMaps)[name][key := text]])
    {
      var read: bool := *;
      if !read || name !in configMaps {
        faults := faults + 1;
        return Failed;
      }
      if (if key in configMaps[name] then configMaps[name][key] else "") == text { return Done(false); }
      var applied: bool := *;
      var accepted: bool := *;
      writes := writes + 1;
      if applied {
        configMaps := configMaps[name := configMaps[name][key := text]];
      }
      outcome := if applied && accepted then Done(true) else Failed;
      if outcome.Failed? { faults := faults + 1; }
    }
  }
}
