/** The two files Trino reads, and the class a person lands in when Trino evaluates the
    selectors of one over the groups the other gives them. */
module GroupRouting {
  import opened Text
  import opened ResourceGroups

  type Members = map<string, set<string>>

  // ---------- resource-groups.json ----------

  datatype SubGroup = SubGroup(name: string, softMemoryLimit: string, hardConcurrencyLimit: int,
                               maxQueued: int, schedulingPolicy: Option<string>)

  datatype RootGroup = RootGroup(name: string, softMemoryLimit: string, hardConcurrencyLimit: int,
                                 maxQueued: int, subGroups: Option<seq<SubGroup>>)

  /** A selector without `userGroup` matches everybody. */
  datatype Selector = Selector(userGroup: Option<string>, group: string)

  datatype Document = Document(rootGroups: seq<RootGroup>, selectors: seq<Selector>)

  function FileGroup(name: string): string {
    "wh-" + name
  }

  function Target(name: string): string {
    "global." + FileGroup(name)
  }

  function SubGroupOf(w: Warehouse): SubGroup {
    var n := ClassNumbers(w);
    SubGroup(FileGroup(w.name), n.memoryShare, n.running, n.queued,
             if n.scheduling == "fifo" then None else Some(n.scheduling))
  }

  function SelectorOf(w: Warehouse): Selector {
    Selector(Some(FileGroup(w.name)), Target(w.name))
  }

  /** Where a person without a class goes: the one default warehouse, if there is one. */
  function CatchAll(ws: seq<Warehouse>): Selector {
    var defaults := Defaults(ws);
    if |defaults| == 1 then Selector(None, Target(Least(defaults))) else Selector(None, "no-warehouse")
  }

  function SubGroups(ws: seq<Warehouse>): seq<SubGroup> {
    seq(|ws|, i requires 0 <= i < |ws| => SubGroupOf(ws[i]))
  }

  function Selectors(ws: seq<Warehouse>): seq<Selector> {
    seq(|ws|, i requires 0 <= i < |ws| => SelectorOf(ws[i]))
  }

  function DocumentOf(ws: seq<Warehouse>, admin: string): Document {
    Document(
      [RootGroup("global", "90%", 100, 500, Some(SubGroups(Ordered(ws)))),
       RootGroup("admin", "100%", 50, 100, None),
       RootGroup("no-warehouse", "0%", 0, 0, None)],
      [Selector(Some(admin), "admin")] + Selectors(Ordered(ws)) + [CatchAll(ws)])
  }

  /** The loop of `render_resource_groups` over the ordered classes. */
  method RenderClasses(ordered: seq<Warehouse>) returns (subGroups: seq<SubGroup>, selectors: seq<Selector>)
    ensures subGroups == SubGroups(ordered) && selectors == Selectors(ordered)
  {
    subGroups, selectors := [], [];
    for k := 0 to |ordered|
      invariant subGroups == SubGroups(ordered[..k]) && selectors == Selectors(ordered[..k])
    {
      var w := ordered[k];
      var n := ClassNumbers(w);
      var policy := if n.scheduling == "fifo" then None else Some(n.scheduling);
      subGroups := subGroups + [SubGroup(FileGroup(w.name), n.memoryShare, n.running, n.queued, policy)];
      selectors := selectors + [Selector(Some(FileGroup(w.name)), Target(w.name))];
    }
    assert ordered[..|ordered|] == ordered;
  }

  method RenderCatchAll(ws: seq<Warehouse>) returns (s: Selector)
    ensures s == CatchAll(ws)
  {
    var defaults := Sorted(Defaults(ws));
    if |defaults| == 1 {
      assert defaults[0] in Defaults(ws) && Least(Defaults(ws)) in defaults;
      s := Selector(None, Target(defaults[0]));
    } else {
      s := Selector(None, "no-warehouse");
    }
  }

  /** `render_resource_groups`. */
  method RenderResourceGroups(ws: seq<Warehouse>, admin: string) returns (document: Document)
    ensures document == DocumentOf(ws, admin)
  {
    var subGroups, classes := RenderClasses(Ordered(ws));
    var last := RenderCatchAll(ws);
    document := Document(
      [RootGroup("global", "90%", 100, 500, Some(subGroups)),
       RootGroup("admin", "100%", 50, 100, None),
       RootGroup("no-warehouse", "0%", 0, 0, None)],
      [Selector(Some(admin), "admin")] + classes + [last]);
  }

  // ---------- groups.txt ----------

  /** `warehouse_members`: the union of the members of every granted group. */
  function MembersOf(w: Warehouse, members: Members): set<string> {
    set g, u | g in w.spec.grants && g in members && u in members[g] :: u
  }

  function WarehouseMembers(ws: seq<Warehouse>, members: Members): Members
    requires DistinctNames(ws)
  {
    map w | w in ws :: w.name := MembersOf(w, members)
  }

  function Line(group: string, users: set<string>): string {
    group + ":" + Join(Sorted(users), ',')
  }

  datatype FileEntry = FileEntry(group: string, users: seq<string>)

  function Entry(group: string, users: set<string>): seq<FileEntry> {
    if users == {} then [] else [FileEntry(group, Sorted(users))]
  }

  function UsersOf(wm: Members, name: string): set<string> {
    if name in wm then wm[name] else {}
  }

  function EntriesFor(names: seq<string>, wm: Members): seq<FileEntry> {
    if names == [] then [] else Entry(FileGroup(names[0]), UsersOf(wm, names[0])) + EntriesFor(names[1..], wm)
  }

  /** The non-empty groups: the admin line first, then the warehouses by name. */
  function Entries(admin: string, admins: set<string>, wm: Members): seq<FileEntry> {
    Entry(admin, admins) + EntriesFor(Sorted(wm.Keys), wm)
  }

  function LineOf(e: FileEntry): string {
    e.group + ":" + Join(e.users, ',')
  }

  function Lines(entries: seq<FileEntry>): seq<string> {
    if entries == [] then [] else [LineOf(entries[0])] + Lines(entries[1..])
  }

  function FileText(entries: seq<FileEntry>): string {
    Join(Lines(entries), '\n') + (if entries == [] then "" else "\n")
  }

  lemma {:induction false} LinesConcat(a: seq<FileEntry>, b: seq<FileEntry>)
    ensures Lines(a + b) == Lines(a) + Lines(b)
  {
    if a == [] {
      assert a + b == b;
    } else {
      assert (a + b)[1..] == a[1..] + b;
      LinesConcat(a[1..], b);
    }
  }

  lemma {:induction false} EntriesSnoc(names: seq<string>, n: string, wm: Members)
    ensures EntriesFor(names + [n], wm) == EntriesFor(names, wm) + Entry(FileGroup(n), UsersOf(wm, n))
  {
    if names == [] {
      assert EntriesFor([], wm) == [];
      assert ([] + [n])[1..] == [];
    } else {
      assert (names + [n])[1..] == names[1..] + [n];
      EntriesSnoc(names[1..], n, wm);
    }
  }

  lemma EntryLines(group: string, users: set<string>)
    ensures Lines(Entry(group, users)) == if users == {} then [] else [Line(group, users)]
  {
  }

  lemma LinesStep(entries: seq<FileEntry>, names: seq<string>, k: nat, wm: Members)
    requires k < |names| && entries == EntriesFor(names[..k], wm)
    ensures EntriesFor(names[..k + 1], wm) == entries + Entry(FileGroup(names[k]), UsersOf(wm, names[k]))
    ensures Lines(EntriesFor(names[..k + 1], wm)) ==
      Lines(entries) + Lines(Entry(FileGroup(names[k]), UsersOf(wm, names[k])))
  {
    assert names[..k + 1] == names[..k] + [names[k]];
    EntriesSnoc(names[..k], names[k], wm);
    LinesConcat(entries, Entry(FileGroup(names[k]), UsersOf(wm, names[k])));
  }

  method LinesFor(names: seq<string>, wm: Members) returns (lines: seq<string>)
    requires forall n :: n in names ==> n in wm
    ensures lines == Lines(EntriesFor(names, wm))
  {
    lines := [];
    for k := 0 to |names|
      invariant lines == Lines(EntriesFor(names[..k], wm))
    {
      LinesStep(EntriesFor(names[..k], wm), names, k, wm);
      EntryLines(FileGroup(names[k]), UsersOf(wm, names[k]));
      if wm[names[k]] != {} {
        lines := lines + [Line(FileGroup(names[k]), wm[names[k]])];
      }
    }
    assert names[..|names|] == names;
  }

  /** `render_groups_txt`. */
  method RenderGroupsTxt(admin: string, admins: set<string>, wm: Members) returns (text: string)
    ensures text == FileText(Entries(admin, admins, wm))
  {
    var lines := LinesFor(Sorted(wm.Keys), wm);
    EntryLines(admin, admins);
    LinesConcat(Entry(admin, admins), EntriesFor(Sorted(wm.Keys), wm));
    if admins != {} {
      lines := [Line(admin, admins)] + lines;
    }
    ghost var entries := Entries(admin, admins, wm);
    assert lines == Lines(entries);
    LinesLength(entries);
    text := Join(lines, '\n') + (if lines != [] then "\n" else "");
  }

  lemma {:induction false} LinesLength(entries: seq<FileEntry>)
    ensures |Lines(entries)| == |entries|
  {
    if entries != [] { LinesLength(entries[1..]); }
  }

  // ---------- reading the file back ----------

  /** One line: the group before the first `:`, the members after it. */
  function ParseLine(line: string): seq<FileEntry> {
    var i := Find(line, ':');
    if i == |line| then [] else [FileEntry(line[..i], Split(line[i + 1..], ','))]
  }

  function ParseLines(lines: seq<string>): seq<FileEntry> {
    if lines == [] then [] else ParseLine(lines[0]) + ParseLines(lines[1..])
  }

  /** Trino's file group provider: a line without `:` (the end of the file) gives nothing. */
  function ParseFile(text: string): seq<FileEntry> {
    ParseLines(Split(text, '\n'))
  }

  predicate PlainGroup(g: string) {
    ':' !in g && '\n' !in g
  }

  predicate PlainUsers(users: set<string>) {
    forall u | u in users :: u != "" && ',' !in u && '\n' !in u
  }

  predicate PlainEntry(e: FileEntry) {
    PlainGroup(e.group) && e.users != [] && forall u | u in e.users :: ',' !in u && '\n' !in u
  }

  lemma ParseLineOf(e: FileEntry)
    requires PlainEntry(e)
    ensures ParseLine(LineOf(e)) == [e] && '\n' !in LineOf(e)
  {
    var rest := Join(e.users, ',');
    FindAfter(e.group, ':', rest);
    var line := LineOf(e);
    assert line == e.group + [':'] + rest;
    assert line[..|e.group|] == e.group && line[|e.group| + 1..] == rest;
    SplitJoin(e.users, ',');
    JoinAvoids(e.users, ',', '\n');
  }

  lemma {:induction false} ParseLinesOf(entries: seq<FileEntry>)
    requires forall e :: e in entries ==> PlainEntry(e)
    ensures ParseLines(Lines(entries)) == entries
    ensures forall l :: l in Lines(entries) ==> '\n' !in l
  {
    if entries != [] {
      ParseLineOf(entries[0]);
      ParseLinesOf(entries[1..]);
    }
  }

  lemma {:induction false} ParseConcat(a: seq<string>, b: seq<string>)
    ensures ParseLines(a + b) == ParseLines(a) + ParseLines(b)
  {
    if a == [] {
      assert a + b == b;
    } else {
      assert (a + b)[1..] == a[1..] + b;
      ParseConcat(a[1..], b);
    }
  }

  lemma SplitLine(line: string)
    requires '\n' !in line
    ensures Split(line + "\n", '\n') == [line, ""]
  {
    assert line + "\n" == line + ['\n'] + "";
    SplitFirst(line, '\n', "");
  }

  lemma JoinLine(lines: seq<string>)
    requires |lines| > 1
    ensures Join(lines, '\n') + "\n" == lines[0] + ['\n'] + (Join(lines[1..], '\n') + "\n")
  {
    var rest := Join(lines[1..], '\n');
    assert Join(lines, '\n') == lines[0] + ['\n'] + rest;
  }

  lemma SplitMore(lines: seq<string>)
    requires |lines| > 1 && '\n' !in lines[0]
    ensures Split(Join(lines, '\n') + "\n", '\n') == [lines[0]] + Split(Join(lines[1..], '\n') + "\n", '\n')
  {
    JoinLine(lines);
    SplitFirst(lines[0], '\n', Join(lines[1..], '\n') + "\n");
  }

  lemma {:induction false} SplitFile(lines: seq<string>)
    requires lines != [] && forall l :: l in lines ==> '\n' !in l
    ensures Split(Join(lines, '\n') + "\n", '\n') == lines + [""]
  {
    if |lines| == 1 {
      SplitLine(lines[0]);
      assert lines == [lines[0]];
    } else {
      SplitFile(lines[1..]);
      SplitMore(lines);
      assert [lines[0]] + (lines[1..] + [""]) == lines + [""];
    }
  }

  /** Reading the rendered file gives back exactly the entries it was rendered from. */
  lemma FileRoundTrip(entries: seq<FileEntry>)
    requires forall e :: e in entries ==> PlainEntry(e)
    ensures ParseFile(FileText(entries)) == entries
  {
    ParseLinesOf(entries);
    LinesLength(entries);
    if entries == [] {
      assert FileText(entries) == "";
      assert Split("", '\n') == [""];
    } else {
      SplitFile(Lines(entries));
      ParseConcat(Lines(entries), [""]);
    }
    assert ParseLine("") == [];
    assert ParseLines([""]) == [];
  }

  // ---------- determinism ----------

  /** The files do not depend on the order in which the API lists the warehouses. */
  lemma RenderDeterministic(a: seq<Warehouse>, b: seq<Warehouse>, admin: string, members: Members)
    requires ResourceGroups.DistinctNames(a) && multiset(a) == multiset(b)
    ensures ResourceGroups.DistinctNames(b)
    ensures DocumentOf(a, admin) == DocumentOf(b, admin)
    ensures WarehouseMembers(a, members) == WarehouseMembers(b, members)
  {
    PermutedNames(a, b);
    OrderedPermutation(a, b);
    SameElements(a, b);
    assert Defaults(a) == Defaults(b);
    MembersAgree(a, b, members);
  }

  lemma SameElements(a: seq<Warehouse>, b: seq<Warehouse>)
    requires multiset(a) == multiset(b)
    ensures forall w :: w in a <==> w in b
  {
    forall w ensures w in a <==> w in b {
      assert w in a <==> w in multiset(a);
      assert w in b <==> w in multiset(b);
    }
  }

  lemma MembersAt(ws: seq<Warehouse>, members: Members, w: Warehouse)
    requires ResourceGroups.DistinctNames(ws) && w in ws
    ensures w.name in WarehouseMembers(ws, members) && WarehouseMembers(ws, members)[w.name] == MembersOf(w, members)
  {
  }

  lemma MembersAgree(a: seq<Warehouse>, b: seq<Warehouse>, members: Members)
    requires ResourceGroups.DistinctNames(a) && ResourceGroups.DistinctNames(b)
    requires forall w :: w in a <==> w in b
    ensures WarehouseMembers(a, members) == WarehouseMembers(b, members)
  {
    var x, y := WarehouseMembers(a, members), WarehouseMembers(b, members);
    forall n ensures n in x <==> n in y {
      if n in x { var w :| w in a && w.name == n; MembersAt(b, members, w); }
      if n in y { var w :| w in b && w.name == n; MembersAt(a, members, w); }
    }
    forall n | n in x ensures x[n] == y[n] {
      var w :| w in a && w.name == n;
      MembersAt(a, members, w);
      MembersAt(b, members, w);
    }
  }

  /** Who is a member of one warehouse's group. */
  lemma UsersByName(ws: seq<Warehouse>, members: Members, n: string, user: string)
    requires ResourceGroups.DistinctNames(ws)
    ensures user in UsersOf(WarehouseMembers(ws, members), n)
      <==> exists w :: w in ws && w.name == n && user in MembersOf(w, members)
    ensures n in WarehouseMembers(ws, members) <==> exists w :: w in ws && w.name == n
  {
    var wm := WarehouseMembers(ws, members);
    if n in wm {
      var w :| w in ws && w.name == n;
      assert wm[w.name] == MembersOf(w, members);
      forall x | x in ws && x.name == n ensures x == w {
        var i :| 0 <= i < |ws| && ws[i] == x;
        var j :| 0 <= j < |ws| && ws[j] == w;
      }
    }
  }

  lemma Between<T>(first: T, middle: seq<T>, last: T, i: nat)
    ensures var s := [first] + middle + [last];
      && |s| == |middle| + 2
      && (i == 0 ==> s[i] == first)
      && (0 < i <= |middle| ==> s[i] == middle[i - 1])
      && (i == |middle| + 1 ==> s[i] == last)
  {
  }

  /** The selectors, one by one. */
  lemma SelectorAt(ws: seq<Warehouse>, admin: string, i: nat)
    ensures |DocumentOf(ws, admin).selectors| == |Ordered(ws)| + 2
    ensures i == 0 ==> DocumentOf(ws, admin).selectors[i] == Selector(Some(admin), "admin")
    ensures 0 < i <= |Ordered(ws)| ==> DocumentOf(ws, admin).selectors[i] == SelectorOf(Ordered(ws)[i - 1])
    ensures i == |Ordered(ws)| + 1 ==> DocumentOf(ws, admin).selectors[i] == CatchAll(ws)
  {
    Between(Selector(Some(admin), "admin"), Selectors(Ordered(ws)), CatchAll(ws), i);
  }

  /** Sub groups and warehouse selectors come in the same order, largest class first. */
  lemma SameOrder(ws: seq<Warehouse>, admin: string)
    requires ResourceGroups.DistinctNames(ws)
    ensures var d := DocumentOf(ws, admin);
      && d.rootGroups[0].subGroups.Some? && |d.rootGroups[0].subGroups.value| == |ws| && |d.selectors| == |ws| + 2
      && (forall i :: 0 <= i < |ws| ==>
            d.selectors[i + 1] == Selector(Some(d.rootGroups[0].subGroups.value[i].name),
                                           "global." + d.rootGroups[0].subGroups.value[i].name))
      && InOrder(Ordered(ws))
  {
    OrderedInOrder(ws);
    assert |multiset(Ordered(ws))| == |multiset(ws)|;
    var d := DocumentOf(ws, admin);
    SelectorAt(ws, admin, 0);
    forall i | 0 <= i < |ws|
      ensures d.selectors[i + 1] == Selector(Some(d.rootGroups[0].subGroups.value[i].name),
                                             "global." + d.rootGroups[0].subGroups.value[i].name)
    {
      SelectorAt(ws, admin, i + 1);
      assert d.rootGroups[0].subGroups.value[i] == SubGroupOf(Ordered(ws)[i]);
    }
  }

  // ---------- routing ----------

  /** The groups the file gives a person. */
  function UserGroups(file: seq<FileEntry>, user: string): set<string> {
    set e | e in file && user in e.users :: e.group
  }

  predicate Selects(s: Selector, groups: set<string>) {
    s.userGroup.Some? ==> s.userGroup.value in groups
  }

  /** The first selector that matches wins. */
  function Route(selectors: seq<Selector>, groups: set<string>): Option<string> {
    if selectors == [] then None
    else if Selects(selectors[0], groups) then Some(selectors[0].group)
    else Route(selectors[1..], groups)
  }

  /** The person is in a group the class is granted to. */
  predicate MayUse(w: Warehouse, members: Members, user: string) {
    exists g | g in w.spec.grants :: g in members && user in members[g]
  }

  lemma MembersExactly(w: Warehouse, members: Members, user: string)
    ensures user in MembersOf(w, members) <==> MayUse(w, members, user)
  {
  }

  predicate HasClass(ws: seq<Warehouse>, members: Members, user: string) {
    exists w | w in ws :: MayUse(w, members, user)
  }

  /** The largest class granted to the person, by least name among equals. */
  ghost predicate BestClass(ws: seq<Warehouse>, members: Members, user: string, w: Warehouse) {
    w in ws && MayUse(w, members, user) &&
    forall x :: x in ws && MayUse(x, members, user) && x != w ==> Outranks(w, x)
  }

  /** A default class such that there is no other. */
  ghost predicate OnlyDefault(ws: seq<Warehouse>, w: Warehouse) {
    w in ws && w.spec.isDefault && forall x :: x in ws && x.spec.isDefault ==> x.name == w.name
  }

  /** Where a person belongs: administrators in their own group, others in their best class,
      and whoever has none in the only default class, or nowhere if there is no such class. */
  ghost predicate Belongs(ws: seq<Warehouse>, members: Members, admins: set<string>, user: string, target: string) {
    if user in admins then target == "admin"
    else if HasClass(ws, members, user) then
      exists w :: BestClass(ws, members, user, w) && target == "global.wh-" + w.name
    else if exists w :: OnlyDefault(ws, w) then
      exists w :: OnlyDefault(ws, w) && target == "global.wh-" + w.name
    else target == "no-warehouse"
  }

  lemma TargetText(name: string)
    ensures Target(name) == "global.wh-" + name
  {
  }

  /** The catch-all selector goes to the only default class, or to `no-warehouse`. */
  lemma CatchAllExactly(ws: seq<Warehouse>)
    ensures CatchAll(ws).userGroup == None
    ensures forall w :: OnlyDefault(ws, w) ==> CatchAll(ws).group == "global.wh-" + w.name
    ensures (forall w :: !OnlyDefault(ws, w)) ==> CatchAll(ws).group == "no-warehouse"
  {
    var defaults := Defaults(ws);
    forall w | OnlyDefault(ws, w) ensures CatchAll(ws).group == "global.wh-" + w.name {
      assert w.name in defaults;
      assert defaults == {w.name};
      TargetText(w.name);
    }
    if |defaults| == 1 {
      var w :| w in ws && w.spec.isDefault && w.name == Least(defaults);
      forall x | x in ws && x.spec.isDefault ensures x.name == w.name {
        assert {w.name, x.name} <= defaults;
        SubsetSize({w.name, x.name}, defaults);
      }
      assert OnlyDefault(ws, w);
    }
  }

  /** The route ends where the person belongs. */
  ghost predicate Lands(ws: seq<Warehouse>, members: Members, admins: set<string>, user: string,
                        route: Option<string>) {
    route.Some? && Belongs(ws, members, admins, user, route.value)
  }

  lemma {:induction false} InEntriesFor(names: seq<string>, wm: Members, g: string, user: string)
    ensures g in UserGroups(EntriesFor(names, wm), user)
      <==> exists n :: n in names && g == FileGroup(n) && user in UsersOf(wm, n)
  {
    if names == [] {
      assert EntriesFor(names, wm) == [];
    } else {
      InEntriesFor(names[1..], wm, g, user);
      InConcat(Entry(FileGroup(names[0]), UsersOf(wm, names[0])), EntriesFor(names[1..], wm), user);
      InEntry(FileGroup(names[0]), UsersOf(wm, names[0]), user);
      assert forall n :: n in names <==> n == names[0] || n in names[1..];
    }
  }

  lemma InConcat(a: seq<FileEntry>, b: seq<FileEntry>, user: string)
    ensures UserGroups(a + b, user) == UserGroups(a, user) + UserGroups(b, user)
  {
  }

  lemma InEntry(group: string, users: set<string>, user: string)
    ensures UserGroups(Entry(group, users), user) == if user in users then {group} else {}
  {
    if users != {} {
      assert Entry(group, users)[0] in Entry(group, users);
    }
  }

  lemma FileGroupInjective(m: string, n: string)
    requires FileGroup(m) == FileGroup(n)
    ensures m == n
  {
    assert m == FileGroup(m)[3..];
    assert n == FileGroup(n)[3..];
  }

  /** What the file says about one person. */
  lemma InFile(ws: seq<Warehouse>, members: Members, admin: string, admins: set<string>, g: string, user: string)
    requires ResourceGroups.DistinctNames(ws)
    ensures g in UserGroups(Entries(admin, admins, WarehouseMembers(ws, members)), user)
      <==> (g == admin && user in admins)
           || exists w :: w in ws && g == FileGroup(w.name) && user in MembersOf(w, members)
  {
    var wm := WarehouseMembers(ws, members);
    InConcat(Entry(admin, admins), EntriesFor(Sorted(wm.Keys), wm), user);
    InEntry(admin, admins, user);
    InEntriesFor(Sorted(wm.Keys), wm, g, user);
    if n :| n in Sorted(wm.Keys) && g == FileGroup(n) && user in UsersOf(wm, n) {
      UsersByName(ws, members, n, user);
    }
    if w :| w in ws && g == FileGroup(w.name) && user in MembersOf(w, members) {
      UsersByName(ws, members, w.name, user);
      assert w.name in Sorted(wm.Keys);
    }
  }

  /** Rendered selectors pick the first warehouse in order whose group the person has. */
  lemma {:induction false} RouteSelectors(ordered: seq<Warehouse>, last: Selector, groups: set<string>)
    requires last.userGroup == None
    ensures var r := Route(Selectors(ordered) + [last], groups);
      if exists i :: 0 <= i < |ordered| && FileGroup(ordered[i].name) in groups then
        exists i :: 0 <= i < |ordered| && FileGroup(ordered[i].name) in groups
          && (forall j :: 0 <= j < i ==> FileGroup(ordered[j].name) !in groups)
          && r == Some(Target(ordered[i].name))
      else r == Some(last.group)
  {
    var all := Selectors(ordered) + [last];
    if ordered == [] {
      assert all == [last];
    } else if FileGroup(ordered[0].name) in groups {
      assert all[0] == SelectorOf(ordered[0]);
    } else {
      assert all[1..] == Selectors(ordered[1..]) + [last];
      RouteSelectors(ordered[1..], last, groups);
      var r := Route(all, groups);
      if i :| 0 <= i < |ordered[1..]| && FileGroup(ordered[1..][i].name) in groups
              && (forall j :: 0 <= j < i ==> FileGroup(ordered[1..][j].name) !in groups)
              && r == Some(Target(ordered[1..][i].name)) {
        assert ordered[i + 1] == ordered[1..][i];
        forall j | 0 <= j < i + 1 ensures FileGroup(ordered[j].name) !in groups {
          if j > 0 { assert ordered[j] == ordered[1..][j - 1]; }
        }
      } else {
        forall j | 0 <= j < |ordered| ensures FileGroup(ordered[j].name) !in groups {
          if j > 0 { assert ordered[j] == ordered[1..][j - 1]; }
        }
      }
    }
  }

  /** The admin group does not take in anybody through a warehouse of the same name. */
  predicate AdminSeparate(ws: seq<Warehouse>, members: Members, admin: string, admins: set<string>) {
    forall w | w in ws :: FileGroup(w.name) == admin ==> MembersOf(w, members) <= admins
  }

  function Routed(ws: seq<Warehouse>, members: Members, admin: string, admins: set<string>, user: string)
    : Option<string>
    requires ResourceGroups.DistinctNames(ws)
  {
    Route(DocumentOf(ws, admin).selectors,
          UserGroups(ParseFile(FileText(Entries(admin, admins, WarehouseMembers(ws, members)))), user))
  }

  /** The texts the file format can carry: what the realm and the API allow as names. */
  predicate Plain(ws: seq<Warehouse>, members: Members, admin: string, admins: set<string>) {
    PlainGroup(admin) && PlainUsers(admins)
    && forall w | w in ws :: PlainGroup(w.name) && PlainUsers(MembersOf(w, members))
  }

  lemma PlainEntryOf(group: string, users: set<string>)
    requires PlainGroup(group) && PlainUsers(users)
    ensures forall e :: e in Entry(group, users) ==> PlainEntry(e)
  {
    if users != {} {
      assert |Sorted(users)| == |users|;
    }
  }

  lemma {:induction false} PlainEntriesFor(names: seq<string>, wm: Members)
    requires forall n :: n in names ==> PlainGroup(n) && PlainUsers(UsersOf(wm, n))
    ensures forall e :: e in EntriesFor(names, wm) ==> PlainEntry(e)
  {
    if names != [] {
      PlainEntriesFor(names[1..], wm);
      PlainEntryOf(FileGroup(names[0]), UsersOf(wm, names[0]));
    }
  }

  lemma PlainFile(ws: seq<Warehouse>, members: Members, admin: string, admins: set<string>)
    requires ResourceGroups.DistinctNames(ws) && Plain(ws, members, admin, admins)
    ensures forall e :: e in Entries(admin, admins, WarehouseMembers(ws, members)) ==> PlainEntry(e)
  {
    var wm := WarehouseMembers(ws, members);
    forall n | n in Sorted(wm.Keys) ensures PlainGroup(n) && PlainUsers(UsersOf(wm, n)) {
      UsersByName(ws, members, n, "");
      var w :| w in ws && w.name == n;
      forall u | u in UsersOf(wm, n) ensures u != "" && ',' !in u && '\n' !in u {
        UsersByName(ws, members, n, u);
        var x :| x in ws && x.name == n && u in MembersOf(x, members);
      }
    }
    PlainEntriesFor(Sorted(wm.Keys), wm);
    PlainEntryOf(admin, admins);
  }

  lemma InOrdered(ws: seq<Warehouse>, w: Warehouse)
    ensures w in Ordered(ws) <==> w in ws
  {
    SameElements(Ordered(ws), ws);
  }

  /** The first class in order whose group a person has is the best one they were granted. */
  lemma FirstIsBest(ws: seq<Warehouse>, members: Members, user: string, groups: set<string>, i: nat)
    requires ResourceGroups.DistinctNames(ws) && i < |Ordered(ws)|
    requires forall w :: w in ws ==> (FileGroup(w.name) in groups <==> user in MembersOf(w, members))
    requires FileGroup(Ordered(ws)[i].name) in groups
    requires forall j :: 0 <= j < i ==> FileGroup(Ordered(ws)[j].name) !in groups
    ensures BestClass(ws, members, user, Ordered(ws)[i])
  {
    var ordered := Ordered(ws);
    var w := ordered[i];
    OrderedInOrder(ws);
    InOrdered(ws, w);
    MembersExactly(w, members, user);
    forall x | x in ws && MayUse(x, members, user) && x != w ensures Outranks(w, x) {
      MembersExactly(x, members, user);
      InOrdered(ws, x);
      var j :| 0 <= j < |ordered| && ordered[j] == x;
      BeforeExactly(w, x);
    }
  }

  lemma BestBelongs(ws: seq<Warehouse>, members: Members, admins: set<string>, user: string, w: Warehouse)
    requires BestClass(ws, members, user, w) && user !in admins
    ensures Belongs(ws, members, admins, user, Target(w.name))
  {
    TargetText(w.name);
  }

  lemma NoneBelongs(ws: seq<Warehouse>, members: Members, admins: set<string>, user: string, groups: set<string>)
    requires user !in admins
    requires forall w :: w in ws ==> (FileGroup(w.name) in groups <==> user in MembersOf(w, members))
    requires forall j :: 0 <= j < |Ordered(ws)| ==> FileGroup(Ordered(ws)[j].name) !in groups
    ensures Belongs(ws, members, admins, user, CatchAll(ws).group)
  {
    forall w | w in ws ensures !MayUse(w, members, user) {
      MembersExactly(w, members, user);
      InOrdered(ws, w);
      var j :| 0 <= j < |Ordered(ws)| && Ordered(ws)[j] == w;
    }
    CatchAllExactly(ws);
  }

  /** A person who is no administrator is routed by the classes they were granted. */
  lemma RouteByClass(ws: seq<Warehouse>, members: Members, admins: set<string>, user: string, groups: set<string>)
    requires ResourceGroups.DistinctNames(ws) && user !in admins
    requires forall w :: w in ws ==> (FileGroup(w.name) in groups <==> user in MembersOf(w, members))
    ensures Lands(ws, members, admins, user, Route(Selectors(Ordered(ws)) + [CatchAll(ws)], groups))
  {
    var ordered := Ordered(ws);
    RouteSelectors(ordered, CatchAll(ws), groups);
    if i :| 0 <= i < |ordered| && FileGroup(ordered[i].name) in groups
            && (forall j :: 0 <= j < i ==> FileGroup(ordered[j].name) !in groups)
            && Route(Selectors(ordered) + [CatchAll(ws)], groups) == Some(Target(ordered[i].name)) {
      FirstIsBest(ws, members, user, groups, i);
      BestBelongs(ws, members, admins, user, ordered[i]);
    } else {
      NoneBelongs(ws, members, admins, user, groups);
    }
  }

  /** Where a person belongs is one place. */
  lemma BelongsUnique(ws: seq<Warehouse>, members: Members, admins: set<string>, user: string, a: string, b: string)
    requires Belongs(ws, members, admins, user, a) && Belongs(ws, members, admins, user, b)
    ensures a == b
  {
    if user !in admins && HasClass(ws, members, user) {
      var v :| BestClass(ws, members, user, v) && a == "global.wh-" + v.name;
      var w :| BestClass(ws, members, user, w) && b == "global.wh-" + w.name;
      if v != w {
        BeforeExactly(v, w);
        BeforeExactly(w, v);
        BeforeAsymmetric(v, w);
      }
    }
  }

  lemma RouteAll(ws: seq<Warehouse>, admin: string, groups: set<string>)
    ensures Route(DocumentOf(ws, admin).selectors, groups)
      == if admin in groups then Some("admin") else Route(Selectors(Ordered(ws)) + [CatchAll(ws)], groups)
  {
    var first, rest := Selector(Some(admin), "admin"), Selectors(Ordered(ws)) + [CatchAll(ws)];
    assert DocumentOf(ws, admin).selectors == [first] + rest;
    RouteFirst(first, rest, groups);
  }

  lemma RouteFirst(first: Selector, rest: seq<Selector>, groups: set<string>)
    ensures Route([first] + rest, groups) == if Selects(first, groups) then Some(first.group) else Route(rest, groups)
  {
    assert ([first] + rest)[1..] == rest;
  }

  /** End to end, through both files: everybody is routed to where they belong, as long
      as the admin group is separate from the warehouses' groups. */
  lemma RoutingCorrect(ws: seq<Warehouse>, members: Members, admin: string, admins: set<string>, user: string)
    requires ResourceGroups.DistinctNames(ws) && Plain(ws, members, admin, admins)
    requires AdminSeparate(ws, members, admin, admins)
    ensures Lands(ws, members, admins, user, Routed(ws, members, admin, admins, user))
  {
    var entries := Entries(admin, admins, WarehouseMembers(ws, members));
    PlainFile(ws, members, admin, admins);
    FileRoundTrip(entries);
    var groups := UserGroups(entries, user);
    RouteAll(ws, admin, groups);
    InFile(ws, members, admin, admins, admin, user);
    if user in admins {
      assert Belongs(ws, members, admins, user, "admin");
    } else {
      forall w | w in ws ensures FileGroup(w.name) in groups <==> user in MembersOf(w, members) {
        InFile(ws, members, admin, admins, FileGroup(w.name), user);
        if x :| x in ws && FileGroup(w.name) == FileGroup(x.name) && user in MembersOf(x, members) {
          FileGroupInjective(w.name, x.name);
          SameName(ws, w, x);
        }
      }
      RouteByClass(ws, members, admins, user, groups);
    }
  }

  lemma SameName(ws: seq<Warehouse>, w: Warehouse, x: Warehouse)
    requires ResourceGroups.DistinctNames(ws) && w in ws && x in ws && w.name == x.name
    ensures w == x
  {
    var i :| 0 <= i < |ws| && ws[i] == w;
    var j :| 0 <= j < |ws| && ws[j] == x;
  }

  lemma AdminForAdmins(ws: seq<Warehouse>, members: Members, admins: set<string>, user: string)
    requires user !in admins
    ensures !Belongs(ws, members, admins, user, "admin")
  {
    forall name: string ensures "global.wh-" + name != "admin" {
      assert ("global.wh-" + name)[0] == 'g';
    }
  }

  /** Without that separation somebody is misrouted: a member of the warehouse that shares
      the admin group's name lands in the administrators' class. */
  lemma RoutingBroken(ws: seq<Warehouse>, members: Members, admin: string, admins: set<string>, w: Warehouse,
                      user: string)
    requires ResourceGroups.DistinctNames(ws) && Plain(ws, members, admin, admins)
    requires w in ws && FileGroup(w.name) == admin && user in MembersOf(w, members) && user !in admins
    ensures Routed(ws, members, admin, admins, user) == Some("admin")
    ensures !Belongs(ws, members, admins, user, "admin")
  {
    var entries := Entries(admin, admins, WarehouseMembers(ws, members));
    PlainFile(ws, members, admin, admins);
    FileRoundTrip(entries);
    RouteAll(ws, admin, UserGroups(entries, user));
    InFile(ws, members, admin, admins, admin, user);
    AdminForAdmins(ws, members, admins, user);
  }

  /** Exactly when routing is right for everybody. */
  lemma RoutingExact(ws: seq<Warehouse>, members: Members, admin: string, admins: set<string>)
    requires ResourceGroups.DistinctNames(ws) && Plain(ws, members, admin, admins)
    ensures AdminSeparate(ws, members, admin, admins) <==>
      forall user :: Lands(ws, members, admins, user, Routed(ws, members, admin, admins, user))
  {
    if AdminSeparate(ws, members, admin, admins) {
      forall user ensures Lands(ws, members, admins, user, Routed(ws, members, admin, admins, user)) {
        RoutingCorrect(ws, members, admin, admins, user);
      }
    } else {
      var w :| w in ws && FileGroup(w.name) == admin && !(MembersOf(w, members) <= admins);
      var user :| user in MembersOf(w, members) && user !in admins;
      RoutingBroken(ws, members, admin, admins, w, user);
      assert !Lands(ws, members, admins, user, Routed(ws, members, admin, admins, user));
    }
  }

  /** `target` is this root group, or one of its sub groups. */
  predicate Names(g: RootGroup, target: string) {
    (g.subGroups == None && target == g.name) ||
    (g.subGroups.Some? && exists s | s in g.subGroups.value :: target == g.name + "." + s.name)
  }

  predicate GroupExists(d: Document, target: string) {
    exists g | g in d.rootGroups :: Names(g, target)
  }

  lemma SubGroupTarget(ws: seq<Warehouse>, admin: string, k: nat)
    requires k < |Ordered(ws)|
    ensures GroupExists(DocumentOf(ws, admin), Target(Ordered(ws)[k].name))
  {
    var d := DocumentOf(ws, admin);
    var g := d.rootGroups[0];
    assert g.subGroups.value[k] in g.subGroups.value;
    assert g.subGroups.value[k].name == FileGroup(Ordered(ws)[k].name);
    assert "global" + "." == "global.";
    assert Names(g, Target(Ordered(ws)[k].name));
    assert g in d.rootGroups;
  }

  lemma RootTarget(ws: seq<Warehouse>, admin: string, k: nat)
    requires 1 <= k < 3
    ensures GroupExists(DocumentOf(ws, admin), DocumentOf(ws, admin).rootGroups[k].name)
  {
    var d := DocumentOf(ws, admin);
    assert d.rootGroups[k] in d.rootGroups && Names(d.rootGroups[k], d.rootGroups[k].name);
  }

  lemma CatchAllTarget(ws: seq<Warehouse>, admin: string)
    ensures GroupExists(DocumentOf(ws, admin), CatchAll(ws).group)
  {
    if |Defaults(ws)| == 1 {
      var w :| w in ws && w.spec.isDefault && w.name == Least(Defaults(ws));
      InOrdered(ws, w);
      var k :| 0 <= k < |Ordered(ws)| && Ordered(ws)[k] == w;
      SubGroupTarget(ws, admin, k);
    } else {
      RootTarget(ws, admin, 2);
    }
  }

  lemma TargetsIn(d: Document, ordered: seq<Warehouse>, i: nat)
    requires |d.selectors| == |ordered| + 2 && i < |d.selectors|
    requires forall k :: 0 <= k < |ordered| ==> d.selectors[k + 1].group == Target(ordered[k].name)
    requires forall k :: 0 <= k < |ordered| ==> GroupExists(d, Target(ordered[k].name))
    requires GroupExists(d, d.selectors[0].group) && GroupExists(d, d.selectors[|ordered| + 1].group)
    ensures GroupExists(d, d.selectors[i].group)
  {
    if 0 < i <= |ordered| {
      assert d.selectors[i - 1 + 1].group == Target(ordered[i - 1].name);
    }
  }

  lemma TargetAt(ws: seq<Warehouse>, admin: string, k: nat)
    requires k < |Ordered(ws)|
    ensures var d := DocumentOf(ws, admin);
      && |d.selectors| == |Ordered(ws)| + 2
      && d.selectors[k + 1].group == Target(Ordered(ws)[k].name) && GroupExists(d, Target(Ordered(ws)[k].name))
  {
    SelectorAt(ws, admin, k + 1);
    SubGroupTarget(ws, admin, k);
  }

  lemma FirstTarget(ws: seq<Warehouse>, admin: string)
    ensures var d := DocumentOf(ws, admin);
      |d.selectors| == |Ordered(ws)| + 2 && GroupExists(d, d.selectors[0].group)
  {
    SelectorAt(ws, admin, 0);
    RootTarget(ws, admin, 1);
  }

  lemma LastTarget(ws: seq<Warehouse>, admin: string)
    ensures var d := DocumentOf(ws, admin);
      |d.selectors| == |Ordered(ws)| + 2 && GroupExists(d, d.selectors[|Ordered(ws)| + 1].group)
  {
    SelectorAt(ws, admin, |Ordered(ws)| + 1);
    CatchAllTarget(ws, admin);
  }

  /** Every target a selector names is a group of the same document. */
  lemma TargetsExist(ws: seq<Warehouse>, admin: string, i: nat)
    requires i < |DocumentOf(ws, admin).selectors|
    ensures GroupExists(DocumentOf(ws, admin), DocumentOf(ws, admin).selectors[i].group)
  {
    FirstTarget(ws, admin);
    LastTarget(ws, admin);
    forall k | 0 <= k < |Ordered(ws)|
      ensures DocumentOf(ws, admin).selectors[k + 1].group == Target(Ordered(ws)[k].name)
      ensures GroupExists(DocumentOf(ws, admin), Target(Ordered(ws)[k].name))
    {
      TargetAt(ws, admin, k);
    }
    TargetsIn(DocumentOf(ws, admin), Ordered(ws), i);
  }

  // ---------- what a group admits ----------

  /** `target` is a group of the document that takes this much memory, runs `running` queries
      and queues `queued` more. */
  ghost predicate Caps(d: Document, target: string, memory: string, running: int, queued: int) {
    || (exists g :: g in d.rootGroups && g.subGroups == None && target == g.name
          && g.softMemoryLimit == memory && g.hardConcurrencyLimit == running && g.maxQueued == queued)
    || (exists g, s :: g in d.rootGroups && g.subGroups.Some? && s in g.subGroups.value
          && target == g.name + "." + s.name
          && s.softMemoryLimit == memory && s.hardConcurrencyLimit == running && s.maxQueued == queued)
  }

  /** A class of the document runs what its spec says, or the defaults of its size. */
  ghost predicate CapsOfClass(d: Document, w: Warehouse) {
    exists memory, running, queued :: Caps(d, "global.wh-" + w.name, memory, running, queued)
      && ByClass(w, w.spec.memoryShare, memory, "70%", "40%", "20%", "10%")
      && ByClass(w, w.spec.running, running, 6, 5, 10, 2)
      && ByClass(w, w.spec.queued, queued, 70, 50, 100, 10)
  }

  /** What the group that holds the classes takes altogether. */
  ghost predicate GlobalCaps(d: Document, memory: string, running: int, queued: int) {
    exists g :: g in d.rootGroups && g.subGroups.Some? && g.name == "global"
      && g.softMemoryLimit == memory && g.hardConcurrencyLimit == running && g.maxQueued == queued
  }

  /** Every class has its caps, all classes share those of `global`, administrators have
      theirs, and `no-warehouse` runs and queues nothing. */
  lemma CapsExactly(ws: seq<Warehouse>, admin: string)
    ensures var d := DocumentOf(ws, admin);
      && Caps(d, "admin", "100%", 50, 100) && Caps(d, "no-warehouse", "0%", 0, 0) && GlobalCaps(d, "90%", 100, 500)
      && forall w :: w in ws ==> CapsOfClass(d, w)
  {
    var d := DocumentOf(ws, admin);
    assert d.rootGroups[0] in d.rootGroups && d.rootGroups[1] in d.rootGroups && d.rootGroups[2] in d.rootGroups;
    forall w | w in ws ensures CapsOfClass(d, w) {
      ClassCaps(ws, admin, w);
    }
  }

  lemma CapsIn(d: Document, g: RootGroup, s: SubGroup)
    requires g in d.rootGroups && g.subGroups.Some? && s in g.subGroups.value
    ensures Caps(d, g.name + "." + s.name, s.softMemoryLimit, s.hardConcurrencyLimit, s.maxQueued)
  {
  }

  lemma SubGroupText(name: string)
    ensures "global.wh-" + name == "global" + "." + FileGroup(name)
  {
  }

  lemma SubGroupIn(ws: seq<Warehouse>, admin: string, w: Warehouse)
    requires w in ws
    ensures SubGroupOf(w) in DocumentOf(ws, admin).rootGroups[0].subGroups.value
  {
    InOrdered(ws, w);
    var k :| 0 <= k < |Ordered(ws)| && Ordered(ws)[k] == w;
    assert SubGroups(Ordered(ws))[k] == SubGroupOf(w);
  }

  lemma ClassCaps(ws: seq<Warehouse>, admin: string, w: Warehouse)
    requires w in ws
    ensures CapsOfClass(DocumentOf(ws, admin), w)
  {
    NumbersExactly(w);
    SubGroupIn(ws, admin, w);
    CapsIn(DocumentOf(ws, admin), DocumentOf(ws, admin).rootGroups[0], SubGroupOf(w));
    SubGroupText(w.name);
  }

  /** A class whose policy is `fifo` names none, every other names its own, `fair` by default. */
  lemma PolicyExactly(w: Warehouse)
    ensures SubGroupOf(w).schedulingPolicy ==
      match w.spec.scheduling
      case None => Some("fair")
      case Some(policy) => if policy == "fifo" then None else Some(policy)
  {
    NumbersExactly(w);
    assert "fair" != "fifo" by { assert "fair"[1] == 'a' && "fifo"[1] == 'i'; }
  }
}
