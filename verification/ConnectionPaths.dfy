/** Which secret store a Connection reads and at which path, and what the policy of each
    group's store lets it read. */
module ConnectionPaths {
  import opened Text
  import PipelineOrder

  // ---------- the resource ----------

  datatype Scope = Managed | Group

  datatype Secret = Secret(keys: seq<string>, remoteRef: Option<string>)

  /** `settingsProblem` is the verdict of the `config`, type and refresh rules, which are
      not modelled. */
  datatype Connection = Connection(scope: Scope, ownerGroup: Option<string>, usableBy: seq<string>,
                                   secret: Option<Secret>, settingsProblem: Option<string>)

  datatype SpecError = NameRule | GroupRule | ManagedRule | RemoteRefRule | KeysRule | SettingsRule(message: string)

  predicate Alphabetic(c: char) { 'a' <= c <= 'z' || 'A' <= c <= 'Z' }

  predicate NameOk(name: string) {
    1 <= |name| <= 40 && Lower(name[0]) && name[|name| - 1] != '-'
    && forall c | c in name :: Lower(c) || Digit(c) || c == '-'
  }

  predicate GroupOk(g: string) {
    PipelineOrder.GroupNameOk(g)
  }

  predicate KeyOk(k: string) {
    1 <= |k| <= 63 && Alphabetic(k[0]) && forall c | c in k :: Alphabetic(c) || Digit(c) || c == '_'
  }

  predicate KeysOk(keys: seq<string>) {
    && 1 <= |keys| <= 16 && |set k | k in keys| == |keys|
    && forall k | k in keys :: KeyOk(k)
  }

  predicate Twice(path: string, c: char) {
    exists i | 0 <= i < |path| - 1 :: path[i] == c && path[i + 1] == c
  }

  /** `contains("..")` or `contains("//")`. */
  predicate RemoteRefOk(path: string) {
    !Twice(path, '.') && !Twice(path, '/')
  }

  /** `ConnectionSpec::validate`: the first rule broken. */
  function SpecProblem(spec: Connection, name: string): Option<SpecError> {
    if !NameOk(name) then Some(NameRule)
    else if spec.scope == Group
            && !(spec.ownerGroup.Some? && GroupOk(spec.ownerGroup.value) && spec.usableBy == []) then Some(GroupRule)
    else if spec.scope == Managed
            && (spec.ownerGroup.Some? || spec.usableBy == [] || exists g | g in spec.usableBy :: !GroupOk(g)) then
      Some(ManagedRule)
    else if spec.secret.Some? && spec.secret.value.remoteRef.Some?
            && !RemoteRefOk(spec.secret.value.remoteRef.value) then
      Some(RemoteRefRule)
    else if spec.secret.Some? && !KeysOk(spec.secret.value.keys) then Some(KeysRule)
    else if spec.settingsProblem.Some? then Some(SettingsRule(spec.settingsProblem.value))
    else None
  }

  // ---------- the plan ----------

  /** What a store can be named after. */
  predicate StoreTarget(target: string) {
    && 1 <= |target| <= 40 && (Lower(target[0]) || Digit(target[0]) || 'A' <= target[0] <= 'Z')
    && target[|target| - 1] != '-'
    && forall c | c in target :: Lower(c) || Digit(c) || c == '-'
  }

  function StoreOf(target: string): string {
    "openbao-" + target
  }

  /** `store_name`; `None` is the refusal. */
  function StoreName(spec: Connection): Option<string> {
    if spec.scope == Managed then Some(StoreOf("managed"))
    else if spec.ownerGroup == None then None
    else if StoreTarget(spec.ownerGroup.value) then Some(StoreOf(spec.ownerGroup.value))
    else None
  }

  /** `derived_remote_ref`. */
  function DerivedPath(spec: Connection, name: string): string {
    if spec.scope == Group && spec.ownerGroup.Some? then "connections/group/" + spec.ownerGroup.value + "/" + name
    else "connections/managed/" + name
  }

  datatype Mode = NoStore | Platform | External

  /** One key of the synced Secret, read as a property of `path`. */
  datatype Field = Field(key: string, path: string)

  datatype Plan =
    | Invalid(reason: string)
    | NoSecret
    | Apply(store: string, clusterWide: bool, secretName: string, data: seq<Field>)

  function Fields(keys: seq<string>, path: string): seq<Field> {
    seq(|keys|, i requires 0 <= i < |keys| => Field(keys[i], path))
  }

  /** `plan`. */
  function PlanFor(spec: Connection, name: string, mode: Mode): Plan {
    if SpecProblem(spec, name).Some? then Invalid("InvalidSpec")
    else if spec.secret == None then NoSecret
    else
      var secret := spec.secret.value;
      if mode == External then
        if secret.remoteRef == None then Invalid("RemoteRefRequired")
        else Apply("enterprise", true, "conn-" + name, Fields(secret.keys, secret.remoteRef.value))
      else if secret.remoteRef.Some? then Invalid("RemoteRefNotAllowed")
      else if StoreName(spec) == None then Invalid("GroupNameNotSupported")
      else Apply(StoreName(spec).value, false, "conn-" + name, Fields(secret.keys, DerivedPath(spec, name)))
  }

  // ---------- what a store may read ----------

  /** `group_path_prefix`. */
  function PathPrefix(group: string): string {
    "connections/group/" + group + "/"
  }

  /** The path pattern of `group_policy`: everything that starts like this, up to the `*`. */
  function PolicyPattern(group: string): string {
    "secret/data/" + PathPrefix(group) + "*"
  }

  /** A pattern that ends in `*` covers every path with the text before it as a prefix. */
  predicate Covers(pattern: string, path: string) {
    pattern != "" && pattern[|pattern| - 1] == '*' && StartsWith(path, pattern[..|pattern| - 1])
  }

  /** The store of `group` may read the key `path` of the store's `secret` engine. */
  predicate MayRead(group: string, path: string) {
    Covers(PolicyPattern(group), "secret/data/" + path)
  }

  lemma MayReadPrefix(group: string, path: string)
    ensures MayRead(group, path) <==> StartsWith(path, PathPrefix(group))
  {
    var pattern, full := PolicyPattern(group), "secret/data/" + path;
    var prefix := PathPrefix(group);
    var before := pattern[..|pattern| - 1];
    assert before == "secret/data/" + prefix;
    if StartsWith(path, prefix) {
      assert path == prefix + path[|prefix|..];
      assert full == before + path[|prefix|..];
    }
    if StartsWith(full, before) {
      assert full == before + full[|before|..];
      assert path == full[12..] && before[12..] == prefix;
      assert path == prefix + full[|before|..];
    }
  }

  lemma NoSlash(g: string)
    requires GroupOk(g) || NameOk(g)
    ensures '/' !in g
  {
  }

  /** What follows a fixed prefix, up to the next `/`. */
  lemma SegmentUnique(head: string, a: string, restA: string, b: string, restB: string)
    requires '/' !in a && '/' !in b
    requires head + a + "/" + restA == head + b + "/" + restB
    ensures a == b && restA == restB
  {
    var s := head + a + "/" + restA;
    assert s[|head|..] == a + ['/'] + restA;
    assert s[|head|..] == b + ['/'] + restB;
    FindAfter(a, '/', restA);
    FindAfter(b, '/', restB);
    assert a == (a + ['/'] + restA)[..|a|] && b == (b + ['/'] + restB)[..|b|];
    assert restA == (a + ['/'] + restA)[|a| + 1..] && restB == (b + ['/'] + restB)[|b| + 1..];
  }

  /** A group's store reads the paths of its own connections and no other group's. */
  lemma GroupPath(owner: string, name: string, g: string)
    requires GroupOk(owner) && GroupOk(g)
    ensures MayRead(g, PathPrefix(owner) + name) <==> g == owner
  {
    var path := PathPrefix(owner) + name;
    MayReadPrefix(g, path);
    NoSlash(owner);
    NoSlash(g);
    if StartsWith(path, PathPrefix(g)) {
      var rest := path[|PathPrefix(g)|..];
      assert path == PathPrefix(g) + rest;
      assert path == "connections/group/" + owner + "/" + name;
      assert path == "connections/group/" + g + "/" + rest;
      SegmentUnique("connections/group/", owner, name, g, rest);
    }
  }

  /** No group's store reads the path of a managed connection. */
  lemma ManagedPath(name: string, g: string)
    ensures !MayRead(g, "connections/managed/" + name)
  {
    var path := "connections/managed/" + name;
    MayReadPrefix(g, path);
    assert path[12] == 'm' && PathPrefix(g)[12] == 'g';
  }

  lemma StoresDiffer(a: string, b: string)
    ensures StoreOf(a) == StoreOf(b) <==> a == b
  {
    assert StoreOf(a)[8..] == a && StoreOf(b)[8..] == b;
  }

  /** The plan syncs these keys, in their order, each as a property of `path`. */
  predicate Planned(p: Plan, keys: seq<string>, path: string) {
    && p.Apply? && |p.data| == |keys|
    && forall i | 0 <= i < |keys| :: p.data[i].key == keys[i] && p.data[i].path == path
  }

  /** A store can be named after 1 to 40 lower-case letters, digits and dashes without a dash
      at either end. */
  lemma StoreTargetExactly(target: string)
    ensures StoreTarget(target) <==>
      && 1 <= |target| <= 40 && target[0] != '-' && target[|target| - 1] != '-'
      && forall i :: 0 <= i < |target| ==> Lower(target[i]) || Digit(target[i]) || target[i] == '-'
  {
    if |target| > 0 { assert target[0] in target; }
  }

  lemma TwiceExactly(path: string, c: char)
    ensures Twice(path, c) <==> exists a: string, b: string :: path == a + [c, c] + b
  {
    if i :| 0 <= i < |path| - 1 && path[i] == c && path[i + 1] == c {
      assert path == path[..i] + [c, c] + path[i + 2..];
    }
    if a: string, b: string :| path == a + [c, c] + b {
      assert path[|a|] == c && path[|a| + 1] == c;
    }
  }

  /** `..` and `//` occur nowhere in an accepted reference. */
  lemma RemoteRefExactly(path: string)
    ensures RemoteRefOk(path) <==> forall a: string, b: string :: path != a + ".." + b && path != a + "//" + b
  {
    TwiceExactly(path, '.');
    TwiceExactly(path, '/');
    assert ".." == ['.', '.'] && "//" == ['/', '/'];
  }

  lemma {:induction false} DistinctCount(keys: seq<string>)
    ensures |set k | k in keys| == |keys| <==> forall i, j :: 0 <= i < j < |keys| ==> keys[i] != keys[j]
    ensures |set k | k in keys| <= |keys|
  {
    if keys != [] {
      var last, before := keys[|keys| - 1], keys[..|keys| - 1];
      DistinctCount(before);
      var all, some := (set k | k in keys), (set k | k in before);
      assert all == some + {last};
      assert last in some ==> all == some;
      assert last in some <==> exists i :: 0 <= i < |before| && keys[i] == last;
    }
  }

  /** 1 to 63 letters, digits and underscores, the first one a letter. */
  predicate ValidKey(k: string) {
    && 1 <= |k| <= 63 && !('0' <= k[0] <= '9') && k[0] != '_'
    && forall i | 0 <= i < |k| ::
         'a' <= k[i] <= 'z' || 'A' <= k[i] <= 'Z' || '0' <= k[i] <= '9' || k[i] == '_'
  }

  lemma KeyExactly(k: string)
    ensures KeyOk(k) <==> ValidKey(k)
  {
    assert forall i :: 0 <= i < |k| ==> k[i] in k;
  }

  /** A connection can be named like a store whose name begins with a letter. */
  lemma NameExactly(name: string)
    ensures NameOk(name) <==> StoreTarget(name) && 'a' <= name[0] <= 'z'
  {
  }

  /** A spec is accepted by its rules: who owns it and who may use it by its scope, a
      reference that does not climb, and 1 to 16 different keys. */
  ghost predicate Accepted(spec: Connection, name: string) {
    && StoreTarget(name) && 'a' <= name[0] <= 'z'
    && (match spec.scope
        case Group => spec.ownerGroup.Some? && PipelineOrder.ValidGroup(spec.ownerGroup.value) && spec.usableBy == []
        case Managed =>
          spec.ownerGroup == None && spec.usableBy != [] &&
          forall g :: g in spec.usableBy ==> PipelineOrder.ValidGroup(g))
    && (spec.secret.Some? ==>
          && (spec.secret.value.remoteRef.Some? ==> RemoteRefOk(spec.secret.value.remoteRef.value))
          && 1 <= |spec.secret.value.keys| <= 16
          && (forall k :: k in spec.secret.value.keys ==> ValidKey(k))
          && (forall i, j :: 0 <= i < j < |spec.secret.value.keys| ==>
                spec.secret.value.keys[i] != spec.secret.value.keys[j]))
    && spec.settingsProblem == None
  }

  lemma AcceptedExactly(spec: Connection, name: string)
    ensures SpecProblem(spec, name) == None <==> Accepted(spec, name)
  {
    NameExactly(name);
    forall g: string ensures GroupOk(g) <==> PipelineOrder.ValidGroup(g) { PipelineOrder.GroupNameExactly(g); }
    forall k: string ensures KeyOk(k) <==> ValidKey(k) { KeyExactly(k); }
    if spec.secret.Some? { DistinctCount(spec.secret.value.keys); }
  }

  /** What becomes of a spec, case by case: outside external mode an author's `remoteRef` is
      refused whatever it names, and what is applied is the path derived from the scope. */
  lemma PlanExactly(spec: Connection, name: string, mode: Mode)
    ensures var p := PlanFor(spec, name, mode);
      if !Accepted(spec, name) then p == Invalid("InvalidSpec")
      else if spec.secret == None then p == NoSecret
      else if mode == External && spec.secret.value.remoteRef == None then p == Invalid("RemoteRefRequired")
      else if mode != External && spec.secret.value.remoteRef.Some? then p == Invalid("RemoteRefNotAllowed")
      else if mode != External && spec.scope == Group && !StoreTarget(spec.ownerGroup.value) then
        p == Invalid("GroupNameNotSupported")
      else
        && p.Apply? && p.secretName == "conn-" + name && p.clusterWide == (mode == External)
        && Planned(p, spec.secret.value.keys,
                   if mode == External then spec.secret.value.remoteRef.value else DerivedPath(spec, name))
  {
    AcceptedExactly(spec, name);
  }

  /** Outside external mode what a plan applies is the derived path, whatever the author wrote. */
  lemma DerivedOnly(spec: Connection, name: string, mode: Mode)
    requires mode != External && PlanFor(spec, name, mode).Apply?
    ensures spec.secret.Some? && spec.secret.value.remoteRef == None && spec.secret.value.keys != []
    ensures Planned(PlanFor(spec, name, mode), spec.secret.value.keys, DerivedPath(spec, name))
    ensures PlanFor(spec, name, mode).data != []
    ensures forall f :: f in PlanFor(spec, name, mode).data ==> f.path == DerivedPath(spec, name)
  {
    PlanExactly(spec, name, mode);
  }

  /** A valid group connection outside external mode gets the path under its own group, and
      among all groups only its own may read it; the store it names is that group's, except
      that `managed` shares its store with the managed connections. It is refused when its
      author names a path, or when its group cannot name a store. */
  lemma GroupPlan(spec: Connection, name: string, mode: Mode)
    requires SpecProblem(spec, name) == None && spec.scope == Group && mode != External && spec.secret.Some?
    ensures var owner, p := spec.ownerGroup.value, PlanFor(spec, name, mode);
      if spec.secret.value.remoteRef.Some? then p == Invalid("RemoteRefNotAllowed")
      else if !StoreTarget(owner) then p == Invalid("GroupNameNotSupported")
      else
        && Planned(p, spec.secret.value.keys, "connections/group/" + owner + "/" + name)
        && (forall g | GroupOk(g) :: MayRead(g, "connections/group/" + owner + "/" + name) <==> g == owner)
        && (forall g :: p.store == StoreOf(g) <==> g == owner)
  {
    var owner := spec.ownerGroup.value;
    PlanExactly(spec, name, mode);
    if spec.secret.value.remoteRef == None && StoreTarget(owner) {
      var path := "connections/group/" + owner + "/" + name;
      assert PathPrefix(owner) + name == path && DerivedPath(spec, name) == path;
      forall g | GroupOk(g) ensures MayRead(g, path) <==> g == owner { GroupPath(owner, name, g); }
      forall g ensures StoreOf(owner) == StoreOf(g) <==> g == owner { StoresDiffer(owner, g); }
    }
  }

  /** A managed connection outside external mode reads where no group's store may, through
      the store `managed`: the one a group shares exactly when it is called `managed`. It is
      refused when its author names a path. */
  lemma ManagedPlan(spec: Connection, name: string, mode: Mode)
    requires SpecProblem(spec, name) == None && spec.scope == Managed && mode != External && spec.secret.Some?
    ensures var p := PlanFor(spec, name, mode);
      if spec.secret.value.remoteRef.Some? then p == Invalid("RemoteRefNotAllowed")
      else
        && Planned(p, spec.secret.value.keys, "connections/managed/" + name)
        && (forall g :: !MayRead(g, "connections/managed/" + name))
        && (forall g :: p.store == StoreOf(g) <==> g == "managed")
  {
    PlanExactly(spec, name, mode);
    forall g ensures !MayRead(g, "connections/managed/" + name) { ManagedPath(name, g); }
    forall g ensures StoreOf("managed") == StoreOf(g) <==> g == "managed" { StoresDiffer("managed", g); }
  }

  lemma EnterpriseStore(g: string)
    ensures StoreOf(g) != "enterprise"
  {
    assert StoreOf(g)[0] == 'o';
  }

  /** Whatever a plan reads through a group's store, that store's policy covers, exactly
      unless the plan is a managed connection's: then the group is called `managed`, and its
      policy covers none of it. No other group's policy covers what a plan reads through it. */
  lemma StoreReadsPath(spec: Connection, name: string, mode: Mode, g: string, f: Field, h: string)
    requires PlanFor(spec, name, mode).Apply? && PlanFor(spec, name, mode).store == StoreOf(g) && GroupOk(g)
    requires f in PlanFor(spec, name, mode).data && GroupOk(h)
    ensures MayRead(g, f.path) <==> spec.scope == Group
    ensures spec.scope == Managed ==> g == "managed"
    ensures MayRead(h, f.path) ==> h == g
  {
    EnterpriseStore(g);
    DerivedOnly(spec, name, mode);
    if spec.scope == Group {
      StoresDiffer(spec.ownerGroup.value, g);
      assert f.path == PathPrefix(g) + name;
      GroupPath(g, name, g);
      GroupPath(g, name, h);
    } else {
      StoresDiffer("managed", g);
      ManagedPath(name, g);
      ManagedPath(name, h);
    }
  }

  /** Two valid connections derive the same path only when scope, group and name agree. */
  lemma PathsInjective(a: Connection, m: string, b: Connection, n: string)
    requires SpecProblem(a, m) == None && SpecProblem(b, n) == None
    requires DerivedPath(a, m) == DerivedPath(b, n)
    ensures a.scope == b.scope && a.ownerGroup == b.ownerGroup && m == n
  {
    assert DerivedPath(a, m)[12] == (if a.scope == Group then 'g' else 'm');
    assert DerivedPath(b, n)[12] == (if b.scope == Group then 'g' else 'm');
    if a.scope == Group && b.scope == Group {
      NoSlash(a.ownerGroup.value);
      NoSlash(b.ownerGroup.value);
      SegmentUnique("connections/group/", a.ownerGroup.value, m, b.ownerGroup.value, n);
    } else if a.scope == Managed && b.scope == Managed {
      assert DerivedPath(a, m)[20..] == m && DerivedPath(b, n)[20..] == n;
    }
  }

  /** In external mode the path is the author's, and it climbs out of nowhere. */
  lemma ExternalPlan(spec: Connection, name: string)
    requires PlanFor(spec, name, External).Apply?
    ensures spec.secret.Some? && spec.secret.value.remoteRef.Some?
    ensures Planned(PlanFor(spec, name, External), spec.secret.value.keys, spec.secret.value.remoteRef.value)
    ensures forall a: string, b: string ::
      spec.secret.value.remoteRef.value != a + ".." + b && spec.secret.value.remoteRef.value != a + "//" + b
    ensures PlanFor(spec, name, External).clusterWide && PlanFor(spec, name, External).store == "enterprise"
  {
    PlanExactly(spec, name, External);
    RemoteRefExactly(spec.secret.value.remoteRef.value);
  }

  // ---------- roles ----------

  /** `group_role_name`: the name of a group's policy and of the role its store signs in with. */
  function RoleName(namespace: string, group: string): string {
    "eso-" + namespace + "-" + group
  }

  /** The second namespace swallows the first part of the first group. */
  ghost predicate Shifted(n: string, g: string, m: string, h: string) {
    exists part: string :: m == n + "-" + part && g == part + "-" + h
  }

  lemma ShiftedName(n: string, g: string, m: string, h: string)
    requires Shifted(n, g, m, h)
    ensures RoleName(n, g) == RoleName(m, h)
  {
    var part :| m == n + "-" + part && g == part + "-" + h;
    assert RoleName(n, g) == "eso-" + n + "-" + part + "-" + h;
  }

  lemma LongerShifts(n: string, g: string, m: string, h: string)
    requires n + "-" + g == m + "-" + h && |n| < |m|
    ensures Shifted(n, g, m, h)
  {
    var s, part := n + "-" + g, m[|n| + 1..];
    assert s[..|n|] == n && s[..|m|] == m && s[|n|] == '-';
    assert m[..|n|] == n && m[|n|] == '-';
    assert m == n + "-" + part;
    assert g == s[|n| + 1..] && g == part + "-" + h;
  }

  /** Two groups share a role name exactly when they are the same group of the same namespace,
      or one namespace is the other, a dash, and the front of the other's group. */
  lemma RoleNamesAgree(n: string, g: string, m: string, h: string)
    ensures RoleName(n, g) == RoleName(m, h) <==> (n == m && g == h) || Shifted(n, g, m, h) || Shifted(m, h, n, g)
  {
    if RoleName(n, g) == RoleName(m, h) {
      assert RoleName(n, g)[4..] == n + "-" + g && RoleName(m, h)[4..] == m + "-" + h;
      if |n| < |m| {
        LongerShifts(n, g, m, h);
      } else if |m| < |n| {
        LongerShifts(m, h, n, g);
      } else {
        assert n == (n + "-" + g)[..|n|] && m == (m + "-" + h)[..|n|];
        assert g == (n + "-" + g)[|n| + 1..] && h == (m + "-" + h)[|n| + 1..];
      }
    }
    if Shifted(n, g, m, h) { ShiftedName(n, g, m, h); }
    if Shifted(m, h, n, g) { ShiftedName(m, h, n, g); }
  }

  /** So it does happen, and not within one namespace nor among namespaces without a dash. */
  lemma RoleNamesCollide(n: string, g: string, m: string, h: string)
    ensures GroupOk("c") && GroupOk("b-c") && RoleName("a-b", "c") == RoleName("a", "b-c")
    ensures n == m || ('-' !in n && '-' !in m) ==> (RoleName(n, g) == RoleName(m, h) <==> n == m && g == h)
  {
    assert RoleName("a-b", "c") == "eso-a-b-c" && RoleName("a", "b-c") == "eso-a-b-c";
    RoleNamesAgree(n, g, m, h);
    if Shifted(n, g, m, h) {
      var part :| m == n + "-" + part && g == part + "-" + h;
      assert m[|n|] == '-';
    }
    if Shifted(m, h, n, g) {
      var part :| n == m + "-" + part && h == part + "-" + g;
      assert n[|m|] == '-';
    }
  }
}
