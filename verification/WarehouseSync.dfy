/** `converge_warehouses`: the verdicts, the two files and the statuses of one tick. */
module WarehouseSync {
  import opened Text
  import opened ResourceGroups
  import opened GroupRouting
  import opened DocumentText
  import opened StatusPatch
  import opened KubeApi

  function Reason(p: Problem): string {
    match p
    case InvalidName => "InvalidName"
    case InvalidSize => "InvalidSize"
    case DuplicateGroup => "DuplicateGroup"
    case InvalidConcurrency => "InvalidConcurrency"
    case TwoDefaults => "TwoDefaults"
    case UnknownGroup => "UnknownGroup"
  }

  // ---------- the verdicts ----------

  function Missing(w: Warehouse, unknown: set<string>): set<string> {
    set g | g in w.spec.grants && g in unknown
  }

  /** The first reason a warehouse is not rendered. */
  function Verdict(ws: seq<Warehouse>, unknown: set<string>, w: Warehouse): Option<Problem> {
    if WarehouseProblem(w).Some? then WarehouseProblem(w)
    else if w.name in TwoDefaultNames(ws) then Some(TwoDefaults)
    else if Missing(w, unknown) != {} then Some(UnknownGroup)
    else None
  }

  /** The message names the group that is missing; the other rules say what they are. */
  function Message(w: Warehouse, unknown: set<string>, p: Problem): string {
    if p == UnknownGroup && Missing(w, unknown) != {} then "the realm has no group `" + Least(Missing(w, unknown)) + "`"
    else "warehouse `" + w.name + "` breaks the rule " + Reason(p)
  }

  /** The elements of `ws` that are in `keep`, in their order. */
  function Filter(ws: seq<Warehouse>, keep: set<Warehouse>): seq<Warehouse> {
    if ws == [] then [] else (if ws[0] in keep then [ws[0]] else []) + Filter(ws[1..], keep)
  }

  lemma {:induction false} FilterElements(ws: seq<Warehouse>, keep: set<Warehouse>)
    ensures forall w :: w in Filter(ws, keep) <==> w in ws && w in keep
  {
    if ws != [] { FilterElements(ws[1..], keep); }
  }

  lemma {:induction false} FilterSnoc(ws: seq<Warehouse>, w: Warehouse, keep: set<Warehouse>)
    ensures Filter(ws + [w], keep) == Filter(ws, keep) + if w in keep then [w] else []
  {
    if ws == [] {
      assert (ws + [w])[1..] == [];
    } else {
      var head, last := if ws[0] in keep then [ws[0]] else [], if w in keep then [w] else [];
      assert (ws + [w])[1..] == ws[1..] + [w] && (ws + [w])[0] == ws[0];
      FilterSnoc(ws[1..], w, keep);
      assert Filter(ws + [w], keep) == head + (Filter(ws[1..], keep) + last);
    }
  }

  lemma {:induction false} FilterDistinct(ws: seq<Warehouse>, keep: set<Warehouse>)
    requires ResourceGroups.DistinctNames(ws)
    ensures ResourceGroups.DistinctNames(Filter(ws, keep))
  {
    if ws != [] {
      FilterDistinct(ws[1..], keep);
      FilterElements(ws[1..], keep);
      forall w | w in Filter(ws[1..], keep) ensures w.name != ws[0].name {
        assert w in ws[1..];
      }
    }
  }

  lemma {:induction false} FilterCounts(ws: seq<Warehouse>, keep: set<Warehouse>, w: Warehouse)
    ensures multiset(Filter(ws, keep))[w] == if w in keep then multiset(ws)[w] else 0
  {
    if ws != [] {
      FilterCounts(ws[1..], keep, w);
      assert ws == [ws[0]] + ws[1..];
    }
  }

  lemma FilterPermuted(a: seq<Warehouse>, b: seq<Warehouse>, keep: set<Warehouse>)
    requires multiset(a) == multiset(b)
    ensures multiset(Filter(a, keep)) == multiset(Filter(b, keep))
  {
    forall w ensures multiset(Filter(a, keep))[w] == multiset(Filter(b, keep))[w] {
      FilterCounts(a, keep, w);
      FilterCounts(b, keep, w);
    }
  }

  function Good(ws: seq<Warehouse>, unknown: set<string>): set<Warehouse> {
    set w | w in ws && Verdict(ws, unknown, w) == None
  }

  function Bad(ws: seq<Warehouse>, unknown: set<string>): set<Warehouse> {
    set w | w in ws && Verdict(ws, unknown, w).Some?
  }

  /** The warehouses that are rendered, in the API's order. */
  function Valid(ws: seq<Warehouse>, unknown: set<string>): (r: seq<Warehouse>)
    ensures forall w :: w in r <==> w in ws && Verdict(ws, unknown, w) == None
  {
    FilterElements(ws, Good(ws, unknown));
    Filter(ws, Good(ws, unknown))
  }

  /** No two defaults are rendered together. */
  lemma OneDefault(ws: seq<Warehouse>, unknown: set<string>)
    ensures |Defaults(Valid(ws, unknown))| <= 1
  {
    var d := Defaults(Valid(ws, unknown));
    assert d <= Defaults(ws);
    if |Defaults(ws)| > 1 {
      assert d == {};
    } else {
      SubsetSize(d, Defaults(ws));
    }
  }

  /** The class says it is the default, and so does another. */
  predicate SharesDefault(ws: seq<Warehouse>, w: Warehouse) {
    w.spec.isDefault && exists x | x in ws :: x.spec.isDefault && x.name != w.name
  }

  /** A class is rendered when it breaks no rule of its own, is not one of several defaults,
      and the realm has all its groups. */
  predicate Rendered(ws: seq<Warehouse>, unknown: set<string>, w: Warehouse) {
    && WarehouseProblem(w) == None
    && !SharesDefault(ws, w)
    && forall g | g in w.spec.grants :: g !in unknown
  }

  lemma DefaultsShared(ws: seq<Warehouse>, w: Warehouse)
    requires ResourceGroups.DistinctNames(ws) && w in ws
    ensures w.name in TwoDefaultNames(ws) <==> SharesDefault(ws, w)
  {
    var defaults := Defaults(ws);
    if w.name in TwoDefaultNames(ws) {
      var d :| d in ws && d.spec.isDefault && d.name == w.name;
      SameName(ws, d, w);
      var other := Another(defaults, w.name);
    }
    if SharesDefault(ws, w) {
      var x :| x in ws && x.spec.isDefault && x.name != w.name;
      assert {w.name, x.name} <= defaults;
      SubsetSize({w.name, x.name}, defaults);
    }
  }

  /** The verdicts, rule by rule: first the class's own, then the defaults, then the groups. */
  lemma VerdictExactly(ws: seq<Warehouse>, unknown: set<string>, w: Warehouse)
    requires ResourceGroups.DistinctNames(ws) && w in ws
    ensures Verdict(ws, unknown, w) == None <==> Rendered(ws, unknown, w)
    ensures Verdict(ws, unknown, w).Some? ==>
      Verdict(ws, unknown, w) ==
        if WarehouseProblem(w).Some? then WarehouseProblem(w)
        else if SharesDefault(ws, w) then Some(TwoDefaults)
        else Some(UnknownGroup)
  {
    DefaultsShared(ws, w);
    assert Missing(w, unknown) == {} <==> forall g :: g in w.spec.grants ==> g !in unknown by {
      if g :| g in w.spec.grants && g in unknown { assert g in Missing(w, unknown); }
    }
  }

  /** The first of the granted groups the realm does not have. */
  ghost predicate FirstMissing(w: Warehouse, unknown: set<string>, g: string) {
    g in w.spec.grants && g in unknown && forall h :: h in w.spec.grants && h in unknown && h != g ==> Less(g, h)
  }

  /** The message of a class whose groups are not all in the realm names the first missing one. */
  lemma MessageExactly(w: Warehouse, unknown: set<string>, g: string)
    requires FirstMissing(w, unknown, g)
    ensures Message(w, unknown, UnknownGroup) == "the realm has no group `" + g + "`"
  {
    assert g in Missing(w, unknown);
    var least := Least(Missing(w, unknown));
    if least != g { LessAsymmetric(least, g); }
  }

  // ---------- the tick's warehouse half ----------

  const WAREHOUSE_CONFIGMAP := "trino-warehouses"
  const WAREHOUSE_KEY := "resource-groups.json"
  const GROUP_CONFIGMAP := "trino-group-file"
  const GROUP_KEY := "groups.txt"

  /** What the tick wants one SqlWarehouse's status to say. */
  function StatusWanted(ws: seq<Warehouse>, members: Members, unknown: set<string>, w: Warehouse): (r: Wanted)
    ensures WellFormed(r, WAREHOUSE_CONDITIONS)
  {
    var verdict := Verdict(ws, unknown, w);
    if verdict.Some? then
      WarehouseWanted("Invalid", None, None, Reason(verdict.value), Message(w, unknown, verdict.value))
    else
      WarehouseWanted("Ready", Some(FileGroup(w.name)), Some("trino@default"), "Ready",
                      Decimal(|GroupRouting.MembersOf(w, members)|) + " member(s) in the group file, resource group "
                      + FileGroup(w.name))
  }

  function AdminUsers(admin: string, members: Members): set<string> {
    if admin in members then members[admin] else {}
  }

  function DocumentWanted(ws: seq<Warehouse>, unknown: set<string>, admin: string): string {
    TextOf(DocumentOf(Valid(ws, unknown), admin))
  }

  function GroupsWanted(ws: seq<Warehouse>, members: Members, unknown: set<string>, admin: string): string
    requires ResourceGroups.DistinctNames(ws)
  {
    FilterDistinct(ws, Good(ws, unknown));
    FileText(Entries(admin, AdminUsers(admin, members), WarehouseMembers(Valid(ws, unknown), members)))
  }

  /** Everything one tick wants the API server to hold for the warehouses. */
  datatype Plan = Plan(document: string, groups: string, statuses: map<string, Wanted>)

  function Statuses(ws: seq<Warehouse>, members: Members, unknown: set<string>): (r: map<string, Wanted>)
    requires ResourceGroups.DistinctNames(ws)
    ensures forall n :: n in r ==> WellFormed(r[n], WAREHOUSE_CONDITIONS)
    ensures r.Keys == Names(ws)
  {
    map w | w in ws :: w.name := StatusWanted(ws, members, unknown, w)
  }

  function PlanFor(ws: seq<Warehouse>, members: Members, unknown: set<string>, admin: string): Plan
    requires ResourceGroups.DistinctNames(ws)
  {
    Plan(DocumentWanted(ws, unknown, admin), GroupsWanted(ws, members, unknown, admin), Statuses(ws, members, unknown))
  }

  lemma VerdictAgrees(a: seq<Warehouse>, b: seq<Warehouse>, unknown: set<string>, w: Warehouse)
    requires forall x :: x in a <==> x in b
    ensures Verdict(a, unknown, w) == Verdict(b, unknown, w)
  {
    assert Defaults(a) == Defaults(b);
  }

  lemma GoodAgrees(a: seq<Warehouse>, b: seq<Warehouse>, unknown: set<string>)
    requires forall x :: x in a <==> x in b
    ensures Good(a, unknown) == Good(b, unknown)
  {
    forall w ensures w in Good(a, unknown) <==> w in Good(b, unknown) {
      VerdictAgrees(a, b, unknown, w);
    }
  }

  lemma StatusAt(ws: seq<Warehouse>, members: Members, unknown: set<string>, w: Warehouse)
    requires ResourceGroups.DistinctNames(ws) && w in ws
    ensures w.name in Statuses(ws, members, unknown)
    ensures Statuses(ws, members, unknown)[w.name] == StatusWanted(ws, members, unknown, w)
  {
  }

  lemma StatusAgrees(a: seq<Warehouse>, b: seq<Warehouse>, members: Members, unknown: set<string>, w: Warehouse)
    requires forall x :: x in a <==> x in b
    ensures StatusWanted(a, members, unknown, w) == StatusWanted(b, members, unknown, w)
  {
    VerdictAgrees(a, b, unknown, w);
  }

  lemma StatusesAgree(a: seq<Warehouse>, b: seq<Warehouse>, members: Members, unknown: set<string>)
    requires ResourceGroups.DistinctNames(a) && ResourceGroups.DistinctNames(b)
    requires forall x :: x in a <==> x in b
    ensures Statuses(a, members, unknown) == Statuses(b, members, unknown)
  {
    var x, y := Statuses(a, members, unknown), Statuses(b, members, unknown);
    assert x.Keys == y.Keys;
    forall n | n in x ensures x[n] == y[n] {
      var w :| w in a && w.name == n;
      StatusAt(a, members, unknown, w);
      StatusAt(b, members, unknown, w);
      StatusAgrees(a, b, members, unknown, w);
    }
  }

  /** A listing of the same warehouses in another order makes the same plan: both files and
      every status. */
  lemma PlanDeterministic(a: seq<Warehouse>, b: seq<Warehouse>, members: Members, unknown: set<string>, admin: string)
    requires ResourceGroups.DistinctNames(a) && multiset(a) == multiset(b)
    ensures ResourceGroups.DistinctNames(b)
    ensures PlanFor(a, members, unknown, admin) == PlanFor(b, members, unknown, admin)
  {
    PermutedNames(a, b);
    SameElements(a, b);
    GoodAgrees(a, b, unknown);
    FilterPermuted(a, b, Good(a, unknown));
    FilterDistinct(a, Good(a, unknown));
    RenderDeterministic(Valid(a, unknown), Valid(b, unknown), admin, members);
    StatusesAgree(a, b, members, unknown);
  }

  function Names(ws: seq<Warehouse>): set<string> {
    set w | w in ws :: w.name
  }

  ghost predicate StatusesSay(live: map<string, Json.Json>, names: set<string>, statuses: map<string, Wanted>)
    requires names <= statuses.Keys
  {
    forall n :: n in names ==> Says(live, n, statuses[n], WAREHOUSE_CONDITIONS)
  }

  ghost predicate FilesSay(files: ConfigMaps, plan: Plan) {
    && Holds(files, WAREHOUSE_CONFIGMAP, WAREHOUSE_KEY, plan.document)
    && Holds(files, GROUP_CONFIGMAP, GROUP_KEY, plan.groups)
  }

  /** Nothing is left to write for the warehouses. */
  ghost predicate Settled(live: map<string, Json.Json>, files: ConfigMaps, plan: Plan) {
    StatusesSay(live, plan.statuses.Keys, plan.statuses) && FilesSay(files, plan)
  }

  ghost predicate WellFormedPlan(plan: Plan) {
    forall n :: n in plan.statuses ==> WellFormed(plan.statuses[n], WAREHOUSE_CONDITIONS)
  }

  /** Everything but the named statuses is as it was. */
  ghost predicate OnlyChanged(before: map<string, Json.Json>, after: map<string, Json.Json>, names: set<string>) {
    before.Keys == after.Keys && forall n :: n in before && n !in names ==> after[n] == before[n]
  }

  /** The statuses of the warehouses in `todo`; stops at the first write that fails. */
  method PatchStatuses(kube: Kube, todo: seq<Warehouse>, plan: Plan) returns (ok: bool)
    requires kube.Valid() && WellFormedPlan(plan) && Names(todo) <= plan.statuses.Keys
    modifies kube`sqlWarehouses, kube`writes, kube`faults
    ensures kube.Valid()
    ensures ok ==> StatusesSay(kube.sqlWarehouses, Names(todo), plan.statuses)
    ensures old(StatusesSay(kube.sqlWarehouses, Names(todo), plan.statuses)) ==>
      kube.sqlWarehouses == old(kube.sqlWarehouses) && kube.writes == old(kube.writes)
    ensures OnlyChanged(old(kube.sqlWarehouses), kube.sqlWarehouses, Names(todo))
    ensures old(kube.faults) <= kube.faults && (kube.faults == old(kube.faults) ==> ok)
  {
    ghost var live := kube.sqlWarehouses;
    ghost var settled := StatusesSay(live, Names(todo), plan.statuses);
    for k := 0 to |todo|
      invariant kube.Valid()
      invariant forall i :: 0 <= i < k ==> Said(kube.sqlWarehouses, todo[i].name, plan)
      invariant kube.faults == old(kube.faults)
      invariant settled ==> kube.sqlWarehouses == live && kube.writes == old(kube.writes)
      invariant OnlyChanged(live, kube.sqlWarehouses, Names(todo))
    {
      assert todo[k] in todo && todo[k].name in Names(todo);
      ghost var before := kube.sqlWarehouses;
      var outcome := kube.PatchWarehouseStatus(todo[k].name, plan.statuses[todo[k].name]);
      ChangedOne(live, before, kube.sqlWarehouses, Names(todo), todo[k].name);
      if outcome.Failed? { return false; }
      SaidOne(before, kube.sqlWarehouses, todo, k, plan);
    }
    ok := true;
  }

  lemma ChangedOne(live: map<string, Json.Json>, before: map<string, Json.Json>, after: map<string, Json.Json>,
                   names: set<string>, name: string)
    requires OnlyChanged(live, before, names) && name in names
    requires after == before || (after.Keys == before.Keys && name in before && after == before[name := after[name]])
    ensures OnlyChanged(live, after, names)
  {
  }

  lemma SaidOne(before: map<string, Json.Json>, after: map<string, Json.Json>, todo: seq<Warehouse>, k: nat, plan: Plan)
    requires k < |todo| && forall i :: 0 <= i < k ==> Said(before, todo[i].name, plan)
    requires after == before ||
      (after.Keys == before.Keys && todo[k].name in before && after == before[todo[k].name := after[todo[k].name]])
    requires Said(after, todo[k].name, plan)
    ensures forall i :: 0 <= i < k + 1 ==> Said(after, todo[i].name, plan)
  {
    forall i | 0 <= i < k ensures Said(after, todo[i].name, plan) {
      if todo[i].name != todo[k].name { assert todo[i].name in before && after[todo[i].name] == before[todo[i].name]; }
    }
  }

  ghost predicate Said(live: map<string, Json.Json>, name: string, plan: Plan) {
    name in plan.statuses && Says(live, name, plan.statuses[name], WAREHOUSE_CONDITIONS)
  }

  lemma JudgedNames(ws: seq<Warehouse>, unknown: set<string>)
    requires ResourceGroups.DistinctNames(ws)
    ensures var valid, invalid := Names(Valid(ws, unknown)), Names(Filter(ws, Bad(ws, unknown)));
      invalid + valid == Names(ws) && invalid !! valid
  {
    var valid, invalid := Valid(ws, unknown), Filter(ws, Bad(ws, unknown));
    FilterElements(ws, Bad(ws, unknown));
    forall v, w | v in valid && w in invalid ensures v.name != w.name {
      if v.name == w.name { SameName(ws, v, w); }
    }
    forall w | w in ws ensures w.name in Names(invalid) + Names(valid) {
      assert w in invalid || w in valid;
    }
  }

  /** The two lists the verdicts make. */
  method Judge(ws: seq<Warehouse>, unknown: set<string>) returns (valid: seq<Warehouse>, invalid: seq<Warehouse>)
    requires ResourceGroups.DistinctNames(ws)
    ensures valid == Valid(ws, unknown) && invalid == Filter(ws, Bad(ws, unknown))
    ensures ResourceGroups.DistinctNames(valid) && ResourceGroups.DistinctNames(invalid)
    ensures Names(invalid) + Names(valid) == Names(ws) && Names(invalid) !! Names(valid)
  {
    valid, invalid := [], [];
    ghost var good, bad := Good(ws, unknown), Bad(ws, unknown);
    for k := 0 to |ws|
      invariant valid == Filter(ws[..k], good) && invalid == Filter(ws[..k], bad)
    {
      assert ws[..k + 1] == ws[..k] + [ws[k]];
      FilterSnoc(ws[..k], ws[k], good);
      FilterSnoc(ws[..k], ws[k], bad);
      if Verdict(ws, unknown, ws[k]) == None {
        valid := valid + [ws[k]];
      } else {
        invalid := invalid + [ws[k]];
      }
    }
    assert ws[..|ws|] == ws;
    FilterDistinct(ws, good);
    FilterDistinct(ws, bad);
    JudgedNames(ws, unknown);
  }

  method WriteFiles(kube: Kube, plan: Plan) returns (ok: bool)
    requires kube.Valid()
    modifies kube`configMaps, kube`writes, kube`faults
    ensures kube.Valid()
    ensures ok ==> FilesSay(kube.configMaps, plan)
    ensures old(FilesSay(kube.configMaps, plan)) ==>
      kube.configMaps == old(kube.configMaps) && kube.writes == old(kube.writes)
    ensures old(kube.faults) <= kube.faults && (kube.faults == old(kube.faults) ==> ok)
  {
    var outcome := kube.ConvergeConfigMap(WAREHOUSE_CONFIGMAP, WAREHOUSE_KEY, plan.document);
    if outcome.Failed? { return false; }
    outcome := kube.ConvergeConfigMap(GROUP_CONFIGMAP, GROUP_KEY, plan.groups);
    ok := outcome.Done?;
  }

  /** Invalid verdicts first, then both files, then the statuses of what was rendered. */
  method WritePlan(kube: Kube, invalid: seq<Warehouse>, valid: seq<Warehouse>, plan: Plan) returns (ok: bool)
    requires kube.Valid() && WellFormedPlan(plan)
    requires Names(invalid) + Names(valid) == plan.statuses.Keys && Names(invalid) !! Names(valid)
    modifies kube`sqlWarehouses, kube`configMaps, kube`writes, kube`faults
    ensures kube.Valid()
    ensures ok ==> Settled(kube.sqlWarehouses, kube.configMaps, plan)
    ensures old(Settled(kube.sqlWarehouses, kube.configMaps, plan)) ==>
      kube.sqlWarehouses == old(kube.sqlWarehouses) && kube.configMaps == old(kube.configMaps) &&
      kube.writes == old(kube.writes)
    ensures old(kube.faults) <= kube.faults && (kube.faults == old(kube.faults) ==> ok)
  {
    ok := PatchStatuses(kube, invalid, plan);
    if !ok { return; }
    ok := WriteFiles(kube, plan);
    if !ok { return; }
    label rendered:
    ok := PatchStatuses(kube, valid, plan);
    if ok {
      forall n | n in Names(invalid) ensures kube.WarehouseSays(n, plan.statuses[n]) {
        assert old@rendered(kube.WarehouseSays(n, plan.statuses[n]));
      }
    }
  }

  lemma PlanWellFormed(ws: seq<Warehouse>, members: Members, unknown: set<string>, admin: string)
    requires ResourceGroups.DistinctNames(ws)
    ensures WellFormedPlan(PlanFor(ws, members, unknown, admin))
    ensures PlanFor(ws, members, unknown, admin).statuses.Keys == Names(ws)
  {
  }

  /** The documents of the plan are what the two renderers return. */
  method RenderPlan(ws: seq<Warehouse>, valid: seq<Warehouse>, members: Members, unknown: set<string>, admin: string)
    returns (plan: Plan)
    requires ResourceGroups.DistinctNames(ws) && ResourceGroups.DistinctNames(valid)
    requires valid == Valid(ws, unknown)
    ensures plan == PlanFor(ws, members, unknown, admin)
    ensures WellFormedPlan(plan) && plan.statuses.Keys == Names(ws)
  {
    PlanWellFormed(ws, members, unknown, admin);
    var document := RenderResourceGroups(valid, admin);
    var groups := RenderGroupsTxt(admin, AdminUsers(admin, members), WarehouseMembers(valid, members));
    plan := Plan(TextOf(document), groups, Statuses(ws, members, unknown));
  }

  // ---------- what a settled plan holds ----------

  function TextIn(files: ConfigMaps, name: string, key: string): string {
    if name in files && key in files[name] then files[name][key] else ""
  }

  /** Trino, reading the two files as they are in the API server, sends the user here. */
  ghost predicate TrinoRoutes(files: ConfigMaps, user: string, target: string) {
    var document, groups := ReadText(TextIn(files, "trino-warehouses", "resource-groups.json")),
                            ParseFile(TextIn(files, "trino-group-file", "groups.txt"));
    document.Some? && Route(document.value.selectors, UserGroups(groups, user)) == Some(target)
  }

  /** The admin group's name and the texts of a class need no escape in either file. */
  predicate PlainInput(ws: seq<Warehouse>, members: Members, admin: string) {
    && Unescaped(admin) && ':' !in admin && PlainUsers(AdminUsers(admin, members))
    && forall w | w in ws ::
         && Unescaped(w.name) && ':' !in w.name && PlainUsers(GroupRouting.MembersOf(w, members))
         && (w.spec.memoryShare.Some? ==> Unescaped(w.spec.memoryShare.value))
         && (w.spec.scheduling.Some? ==> Unescaped(w.spec.scheduling.value))
  }

  lemma UnescapedPrefix(a: string, b: string)
    requires Unescaped(a) && Unescaped(b)
    ensures Unescaped(a + b)
  {
  }

  lemma DefaultsUnescaped(w: Warehouse)
    ensures Unescaped(ClassDefaults(SizeOf(w)).memoryShare) && Unescaped("fair")
  {
  }

  lemma SubPlainOf(w: Warehouse)
    requires Unescaped(w.name) && (w.spec.memoryShare.Some? ==> Unescaped(w.spec.memoryShare.value))
    requires w.spec.scheduling.Some? ==> Unescaped(w.spec.scheduling.value)
    ensures PlainSub(SubGroupOf(w))
  {
    DefaultsUnescaped(w);
    NumbersExactly(w);
    UnescapedPrefix("wh-", w.name);
  }

  lemma TargetPlain(name: string)
    requires Unescaped(name)
    ensures Unescaped(FileGroup(name)) && Unescaped(Target(name))
  {
    UnescapedPrefix("wh-", name);
    UnescapedPrefix("global.", "wh-" + name);
  }

  lemma RootTextsPlain()
    ensures Unescaped("global") && Unescaped("90%") && Unescaped("admin") && Unescaped("100%")
  {
  }

  lemma NowherePlain()
    ensures Unescaped("no-warehouse") && Unescaped("0%")
  {
  }

  lemma SelectorsPlain(ws: seq<Warehouse>, admin: string)
    requires Unescaped(admin) && forall w :: w in ws ==> Unescaped(w.name)
    ensures forall s :: s in DocumentOf(ws, admin).selectors ==> PlainSelector(s)
  {
    RootTextsPlain();
    NowherePlain();
    forall i | 0 <= i < |Ordered(ws)| ensures PlainSelector(Selectors(Ordered(ws))[i]) {
      InOrdered(ws, Ordered(ws)[i]);
      TargetPlain(Ordered(ws)[i].name);
    }
    if |Defaults(ws)| == 1 {
      var w :| w in ws && w.spec.isDefault && w.name == Least(Defaults(ws));
      TargetPlain(w.name);
    }
    assert PlainSelector(CatchAll(ws));
  }

  lemma RootsPlain(ws: seq<Warehouse>, members: Members, admin: string)
    requires PlainInput(ws, members, admin)
    ensures forall g :: g in DocumentOf(ws, admin).rootGroups ==> PlainRoot(g)
  {
    RootTextsPlain();
    NowherePlain();
    forall i | 0 <= i < |Ordered(ws)| ensures PlainSub(SubGroups(Ordered(ws))[i]) {
      InOrdered(ws, Ordered(ws)[i]);
      SubPlainOf(Ordered(ws)[i]);
    }
  }

  lemma RenderedPlain(ws: seq<Warehouse>, members: Members, admin: string)
    requires PlainInput(ws, members, admin)
    ensures PlainDocument(DocumentOf(ws, admin)) && Plain(ws, members, admin, AdminUsers(admin, members))
  {
    SelectorsPlain(ws, admin);
    RootsPlain(ws, members, admin);
  }

  /** Once the plan is settled, Trino sends everybody where they belong among the classes
      that are rendered, reading what the API server holds. */
  lemma SettledRoutes(live: map<string, Json.Json>, files: ConfigMaps, ws: seq<Warehouse>, members: Members,
                      unknown: set<string>, admin: string, user: string)
    requires ResourceGroups.DistinctNames(ws) && PlainInput(ws, members, admin)
    requires Settled(live, files, PlanFor(ws, members, unknown, admin))
    requires AdminSeparate(Valid(ws, unknown), members, admin, AdminUsers(admin, members))
    ensures exists target ::
              TrinoRoutes(files, user, target) &&
              Belongs(Valid(ws, unknown), members, AdminUsers(admin, members), user, target)
  {
    var valid, admins := Valid(ws, unknown), AdminUsers(admin, members);
    FilterDistinct(ws, Good(ws, unknown));
    RenderedPlain(valid, members, admin);
    TextRoundTrip(DocumentOf(valid, admin));
    RoutingCorrect(valid, members, admin, admins, user);
    var target := Routed(valid, members, admin, admins, user).value;
    assert TrinoRoutes(files, user, target);
  }

  /** Why a class is not rendered. */
  function RuleBroken(ws: seq<Warehouse>, w: Warehouse): string {
    match WarehouseProblem(w)
    case Some(InvalidName) => "InvalidName"
    case Some(InvalidSize) => "InvalidSize"
    case Some(DuplicateGroup) => "DuplicateGroup"
    case Some(InvalidConcurrency) => "InvalidConcurrency"
    case _ => if SharesDefault(ws, w) then "TwoDefaults" else "UnknownGroup"
  }

  lemma ReasonExactly(ws: seq<Warehouse>, unknown: set<string>, w: Warehouse)
    requires ResourceGroups.DistinctNames(ws) && w in ws && Verdict(ws, unknown, w).Some?
    ensures Reason(Verdict(ws, unknown, w).value) == RuleBroken(ws, w)
  {
    VerdictExactly(ws, unknown, w);
  }

  /** The status of a class: its group and engine if it is rendered, neither and the rule it
      breaks if not. */
  ghost predicate StatusShows(resource: Json.Json, ws: seq<Warehouse>, unknown: set<string>, w: Warehouse) {
    if Rendered(ws, unknown, w) then
      WarehouseShows(resource, "Ready", Json.Str("wh-" + w.name), Json.Str("trino@default"), true, "Ready")
    else
      WarehouseShows(resource, "Invalid", Json.Null, Json.Null, false, RuleBroken(ws, w))
  }

  lemma RefusedShows(resource: Json.Json, ws: seq<Warehouse>, members: Members, unknown: set<string>, w: Warehouse)
    requires ResourceGroups.DistinctNames(ws) && w in ws && Verdict(ws, unknown, w).Some?
    requires StatusTells(resource, StatusWanted(ws, members, unknown, w), WAREHOUSE_CONDITIONS)
    ensures StatusShows(resource, ws, unknown, w)
  {
    var verdict := Verdict(ws, unknown, w).value;
    VerdictExactly(ws, unknown, w);
    ReasonExactly(ws, unknown, w);
    WarehouseTells(resource, "Invalid", None, None, Reason(verdict), Message(w, unknown, verdict));
  }

  lemma RenderedShows(resource: Json.Json, ws: seq<Warehouse>, members: Members, unknown: set<string>, w: Warehouse)
    requires ResourceGroups.DistinctNames(ws) && w in ws && Verdict(ws, unknown, w) == None
    requires StatusTells(resource, StatusWanted(ws, members, unknown, w), WAREHOUSE_CONDITIONS)
    ensures StatusShows(resource, ws, unknown, w)
  {
    VerdictExactly(ws, unknown, w);
    WarehouseTells(resource, "Ready", Some(FileGroup(w.name)), Some("trino@default"), "Ready",
                   Decimal(|GroupRouting.MembersOf(w, members)|) + " member(s) in the group file, resource group "
                   + FileGroup(w.name));
  }

  /** Once the plan is settled, each class has the status it should. */
  lemma SettledStatus(live: map<string, Json.Json>, files: ConfigMaps, ws: seq<Warehouse>, members: Members,
                      unknown: set<string>, admin: string, w: Warehouse)
    requires ResourceGroups.DistinctNames(ws) && w in ws
    requires Settled(live, files, PlanFor(ws, members, unknown, admin))
    ensures w.name in live && StatusShows(live[w.name], ws, unknown, w)
  {
    StatusAt(ws, members, unknown, w);
    assert Says(live, w.name, StatusWanted(ws, members, unknown, w), WAREHOUSE_CONDITIONS);
    if Verdict(ws, unknown, w).Some? {
      RefusedShows(live[w.name], ws, members, unknown, w);
    } else {
      RenderedShows(live[w.name], ws, members, unknown, w);
    }
  }

  /** Every class has the status it should, and Trino, reading what the API server holds,
      sends everybody where they belong among the classes that are rendered, as long as the
      texts are plain and the admin group is separate. */
  ghost predicate Declared(live: map<string, Json.Json>, files: ConfigMaps, ws: seq<Warehouse>, members: Members,
                           unknown: set<string>, admin: string) {
    && (forall w :: w in ws ==> w.name in live && StatusShows(live[w.name], ws, unknown, w))
    && (PlainInput(ws, members, admin) &&
        AdminSeparate(Valid(ws, unknown), members, admin, AdminUsers(admin, members)) ==>
          forall user :: WellRouted(files, ws, members, unknown, admin, user))
  }

  ghost predicate WellRouted(files: ConfigMaps, ws: seq<Warehouse>, members: Members, unknown: set<string>,
                             admin: string, user: string) {
    exists target :: TrinoRoutes(files, user, target) &&
                     Belongs(Valid(ws, unknown), members, AdminUsers(admin, members), user, target)
  }

  lemma SettledIsDeclared(live: map<string, Json.Json>, files: ConfigMaps, ws: seq<Warehouse>, members: Members,
                          unknown: set<string>, admin: string)
    requires ResourceGroups.DistinctNames(ws)
    requires Settled(live, files, PlanFor(ws, members, unknown, admin))
    ensures Declared(live, files, ws, members, unknown, admin)
  {
    forall w | w in ws ensures w.name in live && StatusShows(live[w.name], ws, unknown, w) {
      SettledStatus(live, files, ws, members, unknown, admin, w);
    }
    if PlainInput(ws, members, admin) &&
       AdminSeparate(Valid(ws, unknown), members, admin, AdminUsers(admin, members)) {
      forall user ensures WellRouted(files, ws, members, unknown, admin, user) {
        SettledRoutes(live, files, ws, members, unknown, admin, user);
      }
    }
  }

  /** `converge_warehouses`. A tick that gets through leaves nothing to write, and a tick
      that finds nothing to write sends nothing. */
  method ConvergeWarehouses(kube: Kube, ws: seq<Warehouse>, members: Members, unknown: set<string>, admin: string)
    returns (ok: bool, ghost plan: Plan)
    requires kube.Valid() && ResourceGroups.DistinctNames(ws)
    modifies kube`sqlWarehouses, kube`configMaps, kube`writes, kube`faults
    ensures kube.Valid()
    ensures plan == PlanFor(ws, members, unknown, admin)
    ensures ok ==>
      Settled(kube.sqlWarehouses, kube.configMaps, plan) &&
      Declared(kube.sqlWarehouses, kube.configMaps, ws, members, unknown, admin)
    ensures old(Settled(kube.sqlWarehouses, kube.configMaps, plan)) ==>
      kube.sqlWarehouses == old(kube.sqlWarehouses) && kube.configMaps == old(kube.configMaps) &&
      kube.writes == old(kube.writes)
    ensures old(kube.faults) <= kube.faults && (kube.faults == old(kube.faults) ==> ok)
  {
    var valid, invalid := Judge(ws, unknown);
    var wanted := RenderPlan(ws, valid, members, unknown, admin);
    plan := wanted;
    ok := WritePlan(kube, invalid, valid, wanted);
    if ok { SettledIsDeclared(kube.sqlWarehouses, kube.configMaps, ws, members, unknown, admin); }
  }
}
