/** One component as a Helm release: the arguments of its upgrade, and what two equal
    fingerprints say. */
module HelmRelease {
  import opened Text

  const OWNER_MARKER := "managed by stardelt-operator"

  /** `settings`: the `--set` pairs in the order of their keys. `values`: the merged
      document, as the text piped to Helm. */
  datatype Release = Release(name: string, chart: string, repo: Option<string>, version: Option<string>,
                             namespace: string, dryRun: bool, settings: seq<(string, string)>, values: Option<string>)

  // ---------- arguments ----------

  /** What follows the last `/`, or everything. */
  function LastSegment(chart: string): string
    decreases |chart|
  {
    var i := Find(chart, '/');
    if i == |chart| then chart else LastSegment(chart[i + 1..])
  }

  function ChartArgument(r: Release): string {
    if r.repo.Some? then LastSegment(r.chart) else r.chart
  }

  function HeadPart(r: Release): seq<string> {
    ["upgrade", "--install", r.name, ChartArgument(r), "--namespace", r.namespace, "--create-namespace"]
  }

  function FlagPart(flag: string, value: Option<string>): seq<string> {
    if value.Some? then [flag, value.value] else []
  }

  function Setting(pair: (string, string)): string {
    pair.0 + "=" + pair.1
  }

  function Settings(pairs: seq<(string, string)>): seq<string> {
    seq(|pairs|, i requires 0 <= i < |pairs| => Setting(pairs[i]))
  }

  function SetPart(texts: seq<string>): seq<string> {
    if texts == [] then [] else ["--set", texts[0]] + SetPart(texts[1..])
  }

  function EndPart(values: bool, dryRun: bool): seq<string> {
    (if values then ["--values", "-"] else []) + ["--description", OWNER_MARKER]
    + (if dryRun then ["--dry-run"] else ["--wait", "--timeout", "10m"])
  }

  function Arguments(r: Release): seq<string> {
    HeadPart(r) + (FlagPart("--repo", r.repo) + (FlagPart("--version", r.version)
    + (SetPart(Settings(r.settings)) + EndPart(r.values.Some?, r.dryRun))))
  }

  lemma {:induction false} SetSnoc(texts: seq<string>, t: string)
    ensures SetPart(texts + [t]) == SetPart(texts) + ["--set", t]
  {
    if texts == [] {
      assert (texts + [t])[1..] == [];
    } else {
      assert (texts + [t])[1..] == texts[1..] + [t];
      SetSnoc(texts[1..], t);
    }
  }

  /** One `--set` for every setting. */
  method PushSettings(args: seq<string>, settings: seq<(string, string)>) returns (more: seq<string>)
    ensures more == args + SetPart(Settings(settings))
  {
    more := args;
    assert SetPart(Settings([])) == [];
    for k := 0 to |settings|
      invariant more == args + SetPart(Settings(settings[..k]))
    {
      var text := settings[k].0 + "=" + settings[k].1;
      assert Settings(settings[..k + 1]) == Settings(settings[..k]) + [text];
      SetSnoc(Settings(settings[..k]), text);
      more := more + ["--set", text];
    }
    assert settings[..|settings|] == settings;
  }

  method PushFlag(args: seq<string>, flag: string, value: Option<string>) returns (more: seq<string>)
    ensures more == args + FlagPart(flag, value)
  {
    more := args;
    if value.Some? {
      more := more + [flag];
      more := more + [value.value];
    }
  }

  method PushEnd(args: seq<string>, values: bool, dryRun: bool) returns (more: seq<string>)
    ensures more == args + EndPart(values, dryRun)
  {
    more := args;
    if values {
      more := more + ["--values", "-"];
    }
    more := more + ["--description", OWNER_MARKER];
    if dryRun {
      more := more + ["--dry-run"];
    } else {
      more := more + ["--wait", "--timeout", "10m"];
    }
  }

  lemma Parts(h: seq<string>, a: seq<string>, b: seq<string>, c: seq<string>, d: seq<string>)
    ensures (((h + a) + b) + c) + d == h + (a + (b + (c + d)))
  {
  }

  /** `HelmRelease::args`. */
  method Args(r: Release) returns (args: seq<string>)
    ensures args == Arguments(r)
  {
    Parts(HeadPart(r), FlagPart("--repo", r.repo), FlagPart("--version", r.version), SetPart(Settings(r.settings)),
          EndPart(r.values.Some?, r.dryRun));
    args := PushFlag(HeadPart(r), "--repo", r.repo);
    args := PushFlag(args, "--version", r.version);
    args := PushSettings(args, r.settings);
    args := PushEnd(args, r.values.Some?, r.dryRun);
  }

  // ---------- the fingerprint ----------

  /** The fingerprint is a hash of the arguments and the document; collisions are left
      out, so it stands for the pair itself. */
  datatype Fingerprint = Fingerprint(args: seq<string>, values: Option<string>)

  function FingerprintOf(r: Release): Fingerprint {
    Fingerprint(Arguments(r), r.values)
  }

  lemma EndEnds(v: bool, d: bool)
    ensures var x := EndPart(v, d);
      x[0] == (if v then "--values" else "--description") && x[|x| - 1] == if d then "--dry-run" else "10m"
  {
  }

  lemma SameEnd(v: bool, w: bool, d: bool, e: bool)
    requires EndPart(v, d) == EndPart(w, e)
    ensures v == w && d == e
  {
    EndEnds(v, d);
    EndEnds(w, e);
  }

  lemma SetHead(texts: seq<string>, v: bool, d: bool)
    ensures var x := SetPart(texts) + EndPart(v, d);
      x != [] && (x[0] == "--set" <==> texts != [])
    ensures texts != [] ==>
      (SetPart(texts) + EndPart(v, d))[1] == texts[0] &&
      (SetPart(texts) + EndPart(v, d))[2..] == SetPart(texts[1..]) + EndPart(v, d)
  {
    EndEnds(v, d);
    if texts == [] {
      assert SetPart(texts) + EndPart(v, d) == EndPart(v, d);
      assert |"--set"| == 5 && |"--values"| == 8 && |"--description"| == 13;
    } else {
      SetTail(texts, EndPart(v, d));
    }
  }

  lemma SetTail(texts: seq<string>, rest: seq<string>)
    requires texts != []
    ensures SetPart(texts) + rest == ["--set", texts[0]] + (SetPart(texts[1..]) + rest)
    ensures (SetPart(texts) + rest)[2..] == SetPart(texts[1..]) + rest
  {
    assert SetPart(texts) + rest == ["--set", texts[0]] + (SetPart(texts[1..]) + rest);
  }

  lemma {:induction false} SameSettings(a: seq<string>, b: seq<string>, v: bool, w: bool, d: bool, e: bool)
    requires SetPart(a) + EndPart(v, d) == SetPart(b) + EndPart(w, e)
    ensures a == b && v == w && d == e
    decreases |a| + |b|
  {
    SetHead(a, v, d);
    SetHead(b, w, e);
    if a == [] {
      assert SetPart(a) + EndPart(v, d) == EndPart(v, d) && SetPart(b) + EndPart(w, e) == EndPart(w, e);
      SameEnd(v, w, d, e);
    } else {
      SameSettings(a[1..], b[1..], v, w, d, e);
      assert a == [a[0]] + a[1..] && b == [b[0]] + b[1..];
    }
  }

  /** A flag that comes first or not at all. */
  lemma SameFlag(flag: string, o: Option<string>, p: Option<string>, x: seq<string>, y: seq<string>)
    requires FlagPart(flag, o) + x == FlagPart(flag, p) + y
    requires x != [] && y != [] && x[0] != flag && y[0] != flag
    ensures o == p && x == y
  {
    var s, t := FlagPart(flag, o) + x, FlagPart(flag, p) + y;
    assert s[0] == (if o.Some? then flag else x[0]) && t[0] == (if p.Some? then flag else y[0]);
    if o.Some? {
      assert s[1] == o.value && t[1] == p.value;
      assert x == s[2..] && y == t[2..];
    } else {
      assert s == x && t == y;
    }
  }

  lemma SetFirst(texts: seq<string>, v: bool, d: bool)
    ensures var x := SetPart(texts) + EndPart(v, d);
      x != [] && x[0] != "--repo" && x[0] != "--version"
  {
    var x := SetPart(texts) + EndPart(v, d);
    assert x[0] == (if texts != [] then "--set" else if v then "--values" else "--description");
  }

  lemma VersionFirst(version: Option<string>, rest: seq<string>)
    requires rest != [] && rest[0] != "--repo"
    ensures var x := FlagPart("--version", version) + rest;
      x != [] && x[0] != "--repo"
  {
    var x := FlagPart("--version", version) + rest;
    assert x[0] == (if version.Some? then "--version" else rest[0]);
  }

  /** Equal fingerprints are equal upgrades: the same release and chart, repository,
      version, namespace, settings and values, and both dry runs or neither. */
  lemma FingerprintDetermines(a: Release, b: Release)
    requires FingerprintOf(a) == FingerprintOf(b)
    ensures a.name == b.name && ChartArgument(a) == ChartArgument(b) && a.namespace == b.namespace
    ensures a.repo == b.repo && a.version == b.version && Settings(a.settings) == Settings(b.settings)
    ensures a.values == b.values && a.dryRun == b.dryRun
  {
    var sa, sb := Settings(a.settings), Settings(b.settings);
    var ea, eb := EndPart(a.values.Some?, a.dryRun), EndPart(b.values.Some?, b.dryRun);
    var va := FlagPart("--version", a.version) + (SetPart(sa) + ea);
    var vb := FlagPart("--version", b.version) + (SetPart(sb) + eb);
    SetFirst(sa, a.values.Some?, a.dryRun);
    SetFirst(sb, b.values.Some?, b.dryRun);
    VersionFirst(a.version, SetPart(sa) + ea);
    VersionFirst(b.version, SetPart(sb) + eb);
    HeadsAgree(a, b, FlagPart("--repo", a.repo) + va, FlagPart("--repo", b.repo) + vb);
    SameFlag("--repo", a.repo, b.repo, va, vb);
    SameFlag("--version", a.version, b.version, SetPart(sa) + ea, SetPart(sb) + eb);
    SameSettings(sa, sb, a.values.Some?, b.values.Some?, a.dryRun, b.dryRun);
  }

  lemma HeadsAgree(a: Release, b: Release, x: seq<string>, y: seq<string>)
    requires HeadPart(a) + x == HeadPart(b) + y
    ensures a.name == b.name && ChartArgument(a) == ChartArgument(b) && a.namespace == b.namespace && x == y
  {
    var s, t := HeadPart(a) + x, HeadPart(b) + y;
    assert s[2] == a.name && t[2] == b.name && s[3] == ChartArgument(a) && t[3] == ChartArgument(b);
    assert s[5] == a.namespace && t[5] == b.namespace && x == s[7..] && y == t[7..];
  }

  // ---------- what Helm reads ----------

  datatype Kind = Switch | Valued | Setter | Unknown | Positional

  /** How Helm takes one argument, by its text. */
  function KindOf(arg: string): Kind {
    if arg in ["--install", "--create-namespace", "--dry-run", "--wait"] then Switch
    else if arg in ["--namespace", "--repo", "--version", "--values", "--description", "--timeout"] then Valued
    else if arg == "--set" then Setter
    else if StartsWith(arg, "-") then Unknown
    else Positional
  }

  /** A command line as read: what is not a flag, the switches, the flags with a value, the
      values of `--set` in their order, and what cannot be read. */
  datatype Command = Command(positional: seq<string>, switches: set<string>, flags: map<string, string>,
                             settings: seq<string>, unknown: seq<string>)

  /** A reader of command lines for which flags may come anywhere. */
  function Read(args: seq<string>): Command {
    if args == [] then Command([], {}, map[], [], []) else
      match KindOf(args[0])
      case Positional => var c := Read(args[1..]); c.(positional := [args[0]] + c.positional)
      case Switch => var c := Read(args[1..]); c.(switches := c.switches + {args[0]})
      case Valued =>
        if |args| == 1 then Command([], {}, map[], [], args) else
          var c := Read(args[2..]); c.(flags := c.flags[args[0] := args[1]])
      case Setter =>
        if |args| == 1 then Command([], {}, map[], [], args) else
          var c := Read(args[2..]); c.(settings := [args[1]] + c.settings)
      case Unknown => var c := Read(args[1..]); c.(unknown := [args[0]] + c.unknown)
  }

  lemma ReadPositional(arg: string, rest: seq<string>)
    requires KindOf(arg) == Positional
    ensures Read([arg] + rest) == Read(rest).(positional := [arg] + Read(rest).positional)
  {
    assert ([arg] + rest)[1..] == rest;
  }

  lemma ReadSwitch(arg: string, rest: seq<string>)
    requires KindOf(arg) == Switch
    ensures Read([arg] + rest) == Read(rest).(switches := Read(rest).switches + {arg})
  {
    assert ([arg] + rest)[1..] == rest;
  }

  lemma ReadValued(flag: string, value: string, rest: seq<string>)
    requires KindOf(flag) == Valued
    ensures Read([flag, value] + rest) == Read(rest).(flags := Read(rest).flags[flag := value])
  {
    assert ([flag, value] + rest)[2..] == rest;
  }

  lemma ReadSetter(value: string, rest: seq<string>)
    ensures Read(["--set", value] + rest) == Read(rest).(settings := [value] + Read(rest).settings)
  {
    SetterKind();
    assert (["--set", value] + rest)[2..] == rest;
  }

  lemma SetterKind()
    ensures KindOf("--set") == Setter
  {
    assert |"--set"| == 5 && |"--wait"| == 6 && |"--repo"| == 6;
  }

  lemma SwitchKinds()
    ensures forall s | s in ["--install", "--create-namespace", "--dry-run", "--wait"] :: KindOf(s) == Switch
  {
  }

  lemma ValuedKinds()
    ensures KindOf("--namespace") == Valued && KindOf("--repo") == Valued && KindOf("--version") == Valued
    ensures KindOf("--values") == Valued && KindOf("--description") == Valued && KindOf("--timeout") == Valued
  {
    assert |"--install"| == 9 && |"--create-namespace"| == 18 && |"--dry-run"| == 9 && |"--wait"| == 6;
    assert |"--namespace"| == 11 && |"--repo"| == 6 && |"--version"| == 9 && |"--values"| == 8;
    assert |"--description"| == 13 && |"--timeout"| == 9;
    assert "--repo"[2] == 'r' && "--wait"[2] == 'w' && "--version"[2] == 'v' && "--timeout"[2] == 't';
    assert "--install"[2] == 'i' && "--dry-run"[2] == 'd';
  }

  lemma HeadFirst(texts: seq<string>, more: seq<string>)
    requires texts != []
    ensures [texts[0]] + (texts[1..] + more) == texts + more
  {
  }

  lemma {:induction false} ReadSettings(texts: seq<string>, rest: seq<string>)
    ensures Read(SetPart(texts) + rest) == Read(rest).(settings := texts + Read(rest).settings)
  {
    if texts == [] {
      assert SetPart(texts) + rest == rest && texts + Read(rest).settings == Read(rest).settings;
    } else {
      SetTail(texts, rest);
      ReadSetter(texts[0], SetPart(texts[1..]) + rest);
      ReadSettings(texts[1..], rest);
      HeadFirst(texts, Read(rest).settings);
    }
  }

  lemma ReadFlag(flag: string, value: Option<string>, rest: seq<string>)
    requires KindOf(flag) == Valued
    ensures Read(FlagPart(flag, value) + rest) ==
      if value.Some? then Read(rest).(flags := Read(rest).flags[flag := value.value]) else Read(rest)
  {
    if value.Some? { ReadValued(flag, value.value, rest); } else { assert FlagPart(flag, value) + rest == rest; }
  }

  /** How long Helm waits, or that it only tries. */
  function LastPart(dryRun: bool): seq<string> {
    if dryRun then ["--dry-run"] else ["--wait", "--timeout", "10m"]
  }

  lemma ReadWait()
    ensures Read(["--wait", "--timeout", "10m"]) == Command([], {"--wait"}, map["--timeout" := "10m"], [], [])
  {
    SwitchKinds();
    ValuedKinds();
    ReadValued("--timeout", "10m", []);
    assert ["--timeout", "10m"] + [] == ["--timeout", "10m"];
    ReadSwitch("--wait", ["--timeout", "10m"]);
    assert ["--wait"] + ["--timeout", "10m"] == ["--wait", "--timeout", "10m"];
  }

  lemma ReadLast(dryRun: bool)
    ensures Read(LastPart(dryRun)) ==
      if dryRun then Command([], {"--dry-run"}, map[], [], [])
      else Command([], {"--wait"}, map["--timeout" := "10m"], [], [])
  {
    if dryRun {
      SwitchKinds();
      ReadSwitch("--dry-run", []);
      assert ["--dry-run"] + [] == ["--dry-run"];
    } else {
      ReadWait();
    }
  }

  lemma EndText(values: bool, dryRun: bool)
    ensures EndPart(values, dryRun) ==
      FlagPart("--values", if values then Some("-") else None)
      + (["--description", OWNER_MARKER] + LastPart(dryRun))
  {
  }

  lemma ReadEnd(values: bool, dryRun: bool)
    ensures var last, c := Read(LastPart(dryRun)), Read(EndPart(values, dryRun));
      var described := last.flags["--description" := OWNER_MARKER];
      c == last.(flags := if values then described["--values" := "-"] else described)
  {
    ValuedKinds();
    EndText(values, dryRun);
    ReadValued("--description", OWNER_MARKER, LastPart(dryRun));
    ReadFlag("--values", if values then Some("-") else None, ["--description", OWNER_MARKER] + LastPart(dryRun));
  }

  /** A text that does not begin with a dash is no flag. */
  lemma NoFlag(arg: string)
    requires arg == "" || arg[0] != '-'
    ensures KindOf(arg) == Positional
  {
    if arg != "" {
      forall flag | flag in ["--install", "--create-namespace", "--dry-run", "--wait", "--namespace", "--repo",
                             "--version", "--values", "--description", "--timeout", "--set", "-"]
        ensures flag[0] == '-'
      {
      }
    }
  }

  lemma NamespaceText(r: Release, rest: seq<string>)
    ensures HeadPart(r) + rest ==
      ["upgrade"] + (["--install"] + ([r.name] + ([ChartArgument(r)] + (["--namespace", r.namespace] +
        (["--create-namespace"] + rest)))))
  {
  }

  lemma ReadNamespace(namespace: string, rest: seq<string>)
    ensures Read(["--namespace", namespace] + (["--create-namespace"] + rest)) ==
      Read(rest).(switches := Read(rest).switches + {"--create-namespace"},
                  flags := Read(rest).flags["--namespace" := namespace])
  {
    SwitchKinds();
    ValuedKinds();
    ReadSwitch("--create-namespace", rest);
    ReadValued("--namespace", namespace, ["--create-namespace"] + rest);
  }

  lemma ReadNames(name: string, chart: string, rest: seq<string>)
    requires KindOf(name) == Positional && KindOf(chart) == Positional
    ensures Read(["upgrade"] + (["--install"] + ([name] + ([chart] + rest)))) ==
      Read(rest).(positional := ["upgrade", name, chart] + Read(rest).positional,
                  switches := Read(rest).switches + {"--install"})
  {
    SwitchKinds();
    NoFlag("upgrade");
    ReadPositional(chart, rest);
    ReadPositional(name, [chart] + rest);
    ReadSwitch("--install", [name] + ([chart] + rest));
    ReadPositional("upgrade", ["--install"] + ([name] + ([chart] + rest)));
    assert ["upgrade"] + ([name] + ([chart] + Read(rest).positional)) ==
      ["upgrade", name, chart] + Read(rest).positional;
  }

  lemma ReadHead(r: Release, rest: seq<string>)
    requires KindOf(r.name) == Positional && KindOf(ChartArgument(r)) == Positional
    ensures var c := Read(rest);
      Read(HeadPart(r) + rest) == Command(["upgrade", r.name, ChartArgument(r)] + c.positional,
                                          c.switches + {"--create-namespace"} + {"--install"},
                                          c.flags["--namespace" := r.namespace], c.settings, c.unknown)
  {
    NamespaceText(r, rest);
    ReadNamespace(r.namespace, rest);
    ReadNames(r.name, ChartArgument(r), ["--namespace", r.namespace] + (["--create-namespace"] + rest));
  }

  lemma ReadTail(r: Release)
    ensures var last := Read(EndPart(r.values.Some?, r.dryRun));
      var versioned := if r.version.Some? then last.flags["--version" := r.version.value] else last.flags;
      Read(FlagPart("--repo", r.repo) + (FlagPart("--version", r.version)
           + (SetPart(Settings(r.settings)) + EndPart(r.values.Some?, r.dryRun)))) ==
        last.(settings := Settings(r.settings),
              flags := if r.repo.Some? then versioned["--repo" := r.repo.value] else versioned)
  {
    var end := EndPart(r.values.Some?, r.dryRun);
    ValuedKinds();
    ReadEnd(r.values.Some?, r.dryRun);
    ReadLast(r.dryRun);
    ReadSettings(Settings(r.settings), end);
    assert Settings(r.settings) + [] == Settings(r.settings);
    ReadFlag("--version", r.version, SetPart(Settings(r.settings)) + end);
    ReadFlag("--repo", r.repo, FlagPart("--version", r.version) + (SetPart(Settings(r.settings)) + end));
  }

  lemma FlagsDiffer()
    ensures "--namespace" != "--repo" && "--namespace" != "--version" && "--namespace" != "--values"
    ensures "--namespace" != "--description" && "--namespace" != "--timeout" && "--repo" != "--version"
    ensures "--repo" != "--values" && "--repo" != "--description" && "--repo" != "--timeout"
    ensures "--version" != "--values" && "--version" != "--description" && "--version" != "--timeout"
    ensures "--values" != "--description" && "--values" != "--timeout" && "--description" != "--timeout"
  {
    assert |"--namespace"| == 11 && |"--repo"| == 6 && |"--version"| == 9 && |"--values"| == 8;
    assert |"--description"| == 13 && |"--timeout"| == 9 && "--version"[2] == 'v' && "--timeout"[2] == 't';
  }

  /** What a flag was given last, if anything. */
  function Given(flags: map<string, string>, flag: string): Option<string> {
    if flag in flags then Some(flags[flag]) else None
  }

  function With(flags: map<string, string>, flag: string, value: Option<string>): map<string, string> {
    if value.Some? then flags[flag := value.value] else flags
  }

  lemma GivenWith(flags: map<string, string>, flag: string, value: Option<string>, other: string)
    ensures Given(With(flags, flag, value), other) ==
      if other == flag && value.Some? then value else Given(flags, other)
  {
  }

  /** Five flags set one after the other. */
  lemma GivenAll(repo: Option<string>, version: Option<string>, values: Option<string>, marker: Option<string>,
                 timeout: Option<string>, namespace: Option<string>, flag: string)
    ensures var flags := With(With(With(With(With(With(map[], "--timeout", timeout), "--description", marker),
                                             "--values", values), "--version", version), "--repo", repo),
                              "--namespace", namespace);
      Given(flags, flag) ==
        if flag == "--namespace" then namespace else if flag == "--repo" then repo
        else if flag == "--version" then version else if flag == "--values" then values
        else if flag == "--description" then marker else if flag == "--timeout" then timeout else None
  {
    FlagsDiffer();
    var t := With(map[], "--timeout", timeout);
    var d := With(t, "--description", marker);
    var l := With(d, "--values", values);
    var v := With(l, "--version", version);
    var r := With(v, "--repo", repo);
    GivenWith(map[], "--timeout", timeout, flag);
    GivenWith(t, "--description", marker, flag);
    GivenWith(d, "--values", values, flag);
    GivenWith(l, "--version", version, flag);
    GivenWith(v, "--repo", repo, flag);
    GivenWith(r, "--namespace", namespace, flag);
  }

  /** The value of a flag of an upgrade, if it has it. */
  function FlagOf(r: Release, flag: string): Option<string> {
    if flag == "--namespace" then Some(r.namespace)
    else if flag == "--repo" then r.repo
    else if flag == "--version" then r.version
    else if flag == "--values" then (if r.values.Some? then Some("-") else None)
    else if flag == "--description" then Some("managed by stardelt-operator")
    else if flag == "--timeout" then (if r.dryRun then None else Some("10m"))
    else None
  }

  lemma PartsRead(r: Release)
    requires KindOf(r.name) == Positional && KindOf(ChartArgument(r)) == Positional
    ensures var c, last := Read(Arguments(r)), Read(LastPart(r.dryRun));
      && c.positional == ["upgrade", r.name, ChartArgument(r)] + last.positional && c.unknown == last.unknown
      && c.settings == Settings(r.settings)
      && c.switches == last.switches + {"--create-namespace"} + {"--install"}
      && c.flags == With(With(With(With(With(last.flags, "--description", Some(OWNER_MARKER)),
                                        "--values", if r.values.Some? then Some("-") else None),
                                   "--version", r.version), "--repo", r.repo), "--namespace", Some(r.namespace))
  {
    var rest := FlagPart("--repo", r.repo) + (FlagPart("--version", r.version)
                + (SetPart(Settings(r.settings)) + EndPart(r.values.Some?, r.dryRun)));
    ReadHead(r, rest);
    ReadTail(r);
    ReadEnd(r.values.Some?, r.dryRun);
  }

  lemma FlagsRead(r: Release, flag: string)
    requires KindOf(r.name) == Positional && KindOf(ChartArgument(r)) == Positional
    ensures Given(Read(Arguments(r)).flags, flag) == FlagOf(r, flag)
  {
    var timeout := if r.dryRun then None else Some("10m");
    PartsRead(r);
    ReadLast(r.dryRun);
    assert Read(LastPart(r.dryRun)).flags == With(map[], "--timeout", timeout);
    GivenAll(r.repo, r.version, if r.values.Some? then Some("-") else None, Some(OWNER_MARKER), timeout,
             Some(r.namespace), flag);
  }

  lemma SwitchesRead(r: Release)
    requires KindOf(r.name) == Positional && KindOf(ChartArgument(r)) == Positional
    ensures var c := Read(Arguments(r));
      && c.positional == ["upgrade", r.name, ChartArgument(r)] && c.unknown == []
      && c.switches == {if r.dryRun then "--dry-run" else "--wait"} + {"--create-namespace"} + {"--install"}
  {
    PartsRead(r);
    ReadLast(r.dryRun);
    var names := ["upgrade", r.name, ChartArgument(r)];
    assert names + [] == names;
  }

  /** What Helm reads from the arguments, wherever it expects its flags: the release, its
      chart and its namespace, every setting in its order, and each flag exactly when the
      release asks for it; names that begin with a dash aside. */
  lemma ArgumentsRead(r: Release, flag: string)
    requires r.name == "" || r.name[0] != '-'
    requires ChartArgument(r) == "" || ChartArgument(r)[0] != '-'
    ensures var c := Read(Arguments(r));
      && c.positional == ["upgrade", r.name, ChartArgument(r)] && c.unknown == []
      && |c.settings| == |r.settings|
      && (forall i :: 0 <= i < |r.settings| ==> c.settings[i] == r.settings[i].0 + "=" + r.settings[i].1)
      && c.switches == {if r.dryRun then "--dry-run" else "--wait"} + {"--create-namespace"} + {"--install"}
      && Given(c.flags, flag) == FlagOf(r, flag)
  {
    NoFlag(r.name);
    NoFlag(ChartArgument(r));
    FlagsRead(r, flag);
    SwitchesRead(r);
    PartsRead(r);
  }

  /** The part is the whole path, or what follows one of its `/`. */
  ghost predicate EndsIn(path: string, part: string) {
    path == part || exists head: string :: path == head + "/" + part
  }

  lemma EndsLater(front: string, path: string, part: string)
    requires EndsIn(path, part)
    ensures EndsIn(front + "/" + path, part)
  {
    if head: string :| path == head + "/" + part {
      assert front + "/" + path == (front + "/" + head) + "/" + part;
    }
  }

  /** The last segment of a path ends it and holds no `/`. */
  lemma {:induction false} LastSegmentExactly(chart: string)
    ensures '/' !in LastSegment(chart) && EndsIn(chart, LastSegment(chart))
    decreases |chart|
  {
    var i := Find(chart, '/');
    if i < |chart| {
      LastSegmentExactly(chart[i + 1..]);
      EndsLater(chart[..i], chart[i + 1..], LastSegment(chart));
      assert chart == chart[..i] + "/" + chart[i + 1..];
    }
  }

  /** The operator names a chart by its path, or within a repository by the path's last part. */
  lemma ChartExactly(r: Release)
    ensures r.repo == None ==> ChartArgument(r) == r.chart
    ensures r.repo.Some? ==> '/' !in ChartArgument(r) && EndsIn(r.chart, ChartArgument(r))
  {
    LastSegmentExactly(r.chart);
  }

  // ---------- the marker ----------

  /** The description an upgrade with these arguments records. */
  predicate Describes(args: seq<string>, description: string) {
    exists i | 0 <= i < |args| - 1 :: args[i] == "--description" && args[i + 1] == description
  }

  /** The arguments of every upgrade name the marker as the description. */
  lemma ArgumentsMarked(r: Release)
    ensures Describes(Arguments(r), OWNER_MARKER)
  {
    var args := Arguments(r);
    var n := |args| - (if r.dryRun then 3 else 5);
    assert args[n] == "--description" && args[n + 1] == OWNER_MARKER;
  }
}
