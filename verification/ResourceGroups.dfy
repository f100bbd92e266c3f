/** The SqlWarehouse half of the access sync: the verdict on each object, Trino's resource
    groups and the group file, and the class a person is routed to through both. */
module ResourceGroups {
  import opened Text

  datatype WarehouseSpec = WarehouseSpec(
    size: string,                    // "" when absent
    grants: seq<string>,             // the granted groups, in spec order, empty names dropped
    running: Option<int>,
    queued: Option<int>,
    memoryShare: Option<string>,
    scheduling: Option<string>,
    isDefault: bool)

  datatype Warehouse = Warehouse(name: string, spec: WarehouseSpec)

  function SizeOf(w: Warehouse): string {
    if w.spec.size == "" then "small" else w.spec.size
  }

  /** `SIZE_ORDER.index`: 4 for a size that is not a class. */
  function SizeIndex(size: string): nat {
    if size == "large" then 0 else if size == "medium" then 1 else if size == "small" then 2
    else if size == "xs" then 3 else 4
  }

  datatype Numbers = Numbers(running: int, queued: int, memoryShare: string, scheduling: string)

  /** `CLASS_DEFAULTS`. */
  function ClassDefaults(size: string): Numbers {
    if size == "large" then Numbers(6, 70, "70%", "fair")
    else if size == "medium" then Numbers(5, 50, "40%", "fair")
    else if size == "small" then Numbers(10, 100, "20%", "fair")
    else Numbers(2, 10, "10%", "fair")
  }

  /** `class_numbers`: the class defaults with the spec's overrides. */
  function ClassNumbers(w: Warehouse): Numbers {
    var d := ClassDefaults(SizeOf(w));
    Numbers(Or(w.spec.running, d.running), Or(w.spec.queued, d.queued),
            Or(w.spec.memoryShare, d.memoryShare), Or(w.spec.scheduling, d.scheduling))
  }

  function Or<T>(o: Option<T>, otherwise: T): T {
    if o.Some? then o.value else otherwise
  }

  // ---------- the verdict on one object ----------

  /** Python's `$` also matches before one final newline. */
  function WithoutFinalNewline(s: string): string {
    if s != "" && s[|s| - 1] == '\n' then s[..|s| - 1] else s
  }

  predicate NameMatches(name: string) {
    var n := WithoutFinalNewline(name);
    1 <= |n| <= 40 && Lower(n[0]) && forall c | c in n :: Lower(c) || Digit(c) || c == '-'
  }

  predicate ShareMatches(share: string) {
    var s := WithoutFinalNewline(share);
    2 <= |s| <= 4 && s[|s| - 1] == '%' && '1' <= s[0] <= '9'
    && (|s| == 3 ==> Digit(s[1])) && (|s| == 4 ==> s[..3] == "100")
  }

  datatype Problem = InvalidName | InvalidSize | DuplicateGroup | InvalidConcurrency | TwoDefaults | UnknownGroup

  predicate Distinct(s: seq<string>) {
    forall i, j | 0 <= i < j < |s| :: s[i] != s[j]
  }

  /** `warehouse_problem`: the first rule the object breaks. */
  function WarehouseProblem(w: Warehouse): Option<Problem> {
    if !NameMatches(w.name) || (w.name != "" && w.name[|w.name| - 1] == '-') then Some(InvalidName)
    else if SizeIndex(SizeOf(w)) == 4 then Some(InvalidSize)
    else if !Distinct(w.spec.grants) then Some(DuplicateGroup)
    else if w.spec.running.Some? && !(1 <= w.spec.running.value <= 100) then Some(InvalidConcurrency)
    else if w.spec.queued.Some? && !(0 <= w.spec.queued.value <= 10000) then Some(InvalidConcurrency)
    else if w.spec.memoryShare.Some? && !ShareMatches(w.spec.memoryShare.value) then Some(InvalidConcurrency)
    else if w.spec.scheduling.Some? && w.spec.scheduling.value !in SCHEDULING then Some(InvalidConcurrency)
    else None
  }

  const SCHEDULING: set<string> := {"fifo", "fair", "weighted", "weighted_fair"}

  // ---------- what the rules ask for ----------

  /** 1 to 40 lower-case letters, digits and dashes, the first one a letter. */
  predicate BareName(name: string) {
    && 1 <= |name| <= 40 && 'a' <= name[0] <= 'z'
    && forall i | 0 <= i < |name| :: 'a' <= name[i] <= 'z' || '0' <= name[i] <= '9' || name[i] == '-'
  }

  /** Such a name that does not end with a dash; the pattern lets a final line break through. */
  ghost predicate NameSound(name: string) {
    exists n: string :: (name == n || name == n + "\n") && BareName(n) && name[|name| - 1] != '-'
  }

  lemma FinalNewline(s: string)
    ensures s == WithoutFinalNewline(s) || s == WithoutFinalNewline(s) + "\n"
    ensures forall n: string :: s == n + "\n" ==> n == WithoutFinalNewline(s)
  {
    forall n: string | s == n + "\n" ensures n == WithoutFinalNewline(s) {
      assert s[..|s| - 1] == n && s[|s| - 1] == '\n';
    }
  }

  lemma NoFinalNewline(s: string)
    requires s != "" && s[|s| - 1] != '\n'
    ensures WithoutFinalNewline(s) == s
  {
  }

  predicate SizeSound(w: Warehouse) {
    IsSize(w, "large") || IsSize(w, "medium") || IsSize(w, "small") || IsSize(w, "xs")
  }

  /** A whole percentage from 1 to 100, and here too a final line break is let through. */
  ghost predicate ShareSound(share: string) {
    exists n: nat :: 1 <= n <= 100 && (share == Decimal(n) + "%" || share == Decimal(n) + "%" + "\n")
  }

  ghost predicate NumbersSound(spec: WarehouseSpec) {
    && (spec.running.Some? ==> 1 <= spec.running.value <= 100)
    && (spec.queued.Some? ==> 0 <= spec.queued.value <= 10000)
    && (spec.memoryShare.Some? ==> ShareSound(spec.memoryShare.value))
    && (spec.scheduling.Some? ==> spec.scheduling.value in {"fifo", "fair", "weighted", "weighted_fair"})
  }

  lemma DigitTexts(c: char)
    requires Digit(c)
    ensures var d := c as int - '0' as int; 0 <= d < 10 && "0123456789"[d] == c
  {
  }

  lemma DecimalTexts(n: nat)
    ensures n < 10 ==> Decimal(n) == ["0123456789"[n]]
    ensures 10 <= n < 100 ==> Decimal(n) == ["0123456789"[n / 10], "0123456789"[n % 10]]
    ensures n == 100 ==> Decimal(n) == "100"
  {
    if n == 100 { assert Decimal(10) == "10"; }
  }

  lemma TwoDigits(s: string)
    requires |s| == 3 && '1' <= s[0] <= '9' && Digit(s[1]) && s[2] == '%'
    ensures var n := 10 * (s[0] as int - '0' as int) + (s[1] as int - '0' as int);
      1 <= n <= 100 && s == Decimal(n) + "%"
  {
    DigitTexts(s[0]);
    DigitTexts(s[1]);
    var n := 10 * (s[0] as int - '0' as int) + (s[1] as int - '0' as int);
    DecimalTexts(n);
    assert s == [s[0], s[1]] + "%";
  }

  lemma Percentage(s: string) returns (n: nat)
    requires 2 <= |s| <= 4 && s[|s| - 1] == '%' && '1' <= s[0] <= '9'
    requires (|s| == 3 ==> Digit(s[1])) && (|s| == 4 ==> s[..3] == "100")
    ensures 1 <= n <= 100 && s == Decimal(n) + "%"
  {
    if |s| == 2 {
      DigitTexts(s[0]);
      n := s[0] as int - '0' as int;
      DecimalTexts(n);
      assert s == [s[0]] + "%";
    } else if |s| == 3 {
      TwoDigits(s);
      n := 10 * (s[0] as int - '0' as int) + (s[1] as int - '0' as int);
    } else {
      n := 100;
      DecimalTexts(100);
      assert s == s[..3] + "%";
    }
  }

  lemma MatchingShare(share: string)
    requires ShareMatches(share)
    ensures ShareSound(share)
  {
    FinalNewline(share);
    var n := Percentage(WithoutFinalNewline(share));
    assert share == Decimal(n) + "%" || share == Decimal(n) + "%" + "\n";
  }

  lemma SoundShare(share: string, n: nat)
    requires 1 <= n <= 100 && WithoutFinalNewline(share) == Decimal(n) + "%"
    ensures ShareMatches(share)
  {
    DecimalTexts(n);
    if n == 100 { assert WithoutFinalNewline(share)[..3] == "100"; }
  }

  /** The pattern for shares accepts the whole percentages from 1 to 100. */
  lemma ShareExactly(share: string)
    ensures ShareMatches(share) <==> ShareSound(share)
  {
    if ShareMatches(share) { MatchingShare(share); }
    if n: nat :| 1 <= n <= 100 && (share == Decimal(n) + "%" || share == Decimal(n) + "%" + "\n") {
      if share == Decimal(n) + "%" { NoFinalNewline(share); } else { FinalNewline(share); }
      SoundShare(share, n);
    }
  }

  /** A warehouse has a problem exactly when a rule is broken, and the first one is named. */
  lemma ProblemExactly(w: Warehouse)
    ensures WarehouseProblem(w) ==
      if !NameSound(w.name) then Some(InvalidName)
      else if !SizeSound(w) then Some(InvalidSize)
      else if exists i, j :: 0 <= i < j < |w.spec.grants| && w.spec.grants[i] == w.spec.grants[j] then
        Some(DuplicateGroup)
      else if !NumbersSound(w.spec) then Some(InvalidConcurrency)
      else None
  {
    SizeIndexExactly(w);
    NameExactly(w.name);
    if w.spec.memoryShare.Some? { ShareExactly(w.spec.memoryShare.value); }
  }

  lemma BareExactly(n: string)
    ensures BareName(n) <==>
      1 <= |n| <= 40 && Lower(n[0]) && forall c | c in n :: Lower(c) || Digit(c) || c == '-'
  {
    assert forall i :: 0 <= i < |n| ==> n[i] in n;
  }

  lemma NameExactly(name: string)
    ensures NameSound(name) <==> NameMatches(name) && !(name != "" && name[|name| - 1] == '-')
  {
    FinalNewline(name);
    BareExactly(WithoutFinalNewline(name));
    if n: string :| (name == n || name == n + "\n") && BareName(n) && name[|name| - 1] != '-' {
      assert n[|n| - 1] != '\n';
      if name == n { NoFinalNewline(name); }
    }
  }

  function Defaults(ws: seq<Warehouse>): set<string> {
    set w | w in ws && w.spec.isDefault :: w.name
  }

  /** `two_defaults`, for warehouses with distinct names. */
  function TwoDefaultNames(ws: seq<Warehouse>): set<string> {
    if |Defaults(ws)| > 1 then Defaults(ws) else {}
  }

  // ---------- the order ----------

  /** The sort key `(SIZE_ORDER.index(size), name)`: largest class first, then by name. */
  predicate Before(a: Warehouse, b: Warehouse) {
    SizeIndex(SizeOf(a)) < SizeIndex(SizeOf(b))
    || (SizeIndex(SizeOf(a)) == SizeIndex(SizeOf(b)) && Less(a.name, b.name))
  }

  /** The class has this size; an absent size is `small`. */
  predicate IsSize(w: Warehouse, size: string) {
    w.spec.size == size || (w.spec.size == "" && size == "small")
  }

  /** `a` is of a larger class than `b`. */
  predicate Larger(a: Warehouse, b: Warehouse) {
    || (IsSize(a, "large") && !IsSize(b, "large"))
    || (IsSize(a, "medium") && !IsSize(b, "large") && !IsSize(b, "medium"))
    || (IsSize(a, "small") && !IsSize(b, "large") && !IsSize(b, "medium") && !IsSize(b, "small"))
    || (IsSize(a, "xs") && SizeIndex(SizeOf(b)) == 4)
  }

  predicate Outranks(a: Warehouse, b: Warehouse) {
    Larger(a, b) || (!Larger(b, a) && Less(a.name, b.name))
  }

  lemma BeforeExactly(a: Warehouse, b: Warehouse)
    ensures Before(a, b) <==> Outranks(a, b)
  {
    SizeIndexExactly(a);
    SizeIndexExactly(b);
  }

  lemma SizeIndexExactly(w: Warehouse)
    ensures SizeIndex(SizeOf(w)) == 0 <==> IsSize(w, "large")
    ensures SizeIndex(SizeOf(w)) == 1 <==> IsSize(w, "medium")
    ensures SizeIndex(SizeOf(w)) == 2 <==> IsSize(w, "small")
    ensures SizeIndex(SizeOf(w)) == 3 <==> IsSize(w, "xs")
    ensures SizeIndex(SizeOf(w)) <= 4
  {
    assert |"large"| == 5 && |"medium"| == 6 && "small"[0] == 's' && "large"[0] == 'l' && |"xs"| == 2;
  }

  /** `value` is what the spec says, or else the default of the class's size. */
  predicate ByClass<T(==)>(w: Warehouse, given: Option<T>, value: T, large: T, medium: T, small: T, xs: T) {
    if given.Some? then value == given.value else
      && (IsSize(w, "large") ==> value == large) && (IsSize(w, "medium") ==> value == medium)
      && (IsSize(w, "small") ==> value == small) && (IsSize(w, "xs") ==> value == xs)
  }

  /** The four numbers of a class, each from the spec or from the table of sizes. */
  lemma NumbersExactly(w: Warehouse)
    ensures var n := ClassNumbers(w);
      && ByClass(w, w.spec.running, n.running, 6, 5, 10, 2)
      && ByClass(w, w.spec.queued, n.queued, 70, 50, 100, 10)
      && ByClass(w, w.spec.memoryShare, n.memoryShare, "70%", "40%", "20%", "10%")
      && n.scheduling == (if w.spec.scheduling.Some? then w.spec.scheduling.value else "fair")
  {
    SizeIndexExactly(w);
  }

  lemma BeforeAsymmetric(a: Warehouse, b: Warehouse)
    requires Before(a, b)
    ensures a != b && !Before(b, a)
  {
    if Less(a.name, b.name) { LessAsymmetric(a.name, b.name); }
  }

  lemma BeforeTransitive(a: Warehouse, b: Warehouse, c: Warehouse)
    requires Before(a, b) && Before(b, c)
    ensures Before(a, c)
  {
    if Less(a.name, b.name) && Less(b.name, c.name) { LessTransitive(a.name, b.name, c.name); }
  }

  lemma BeforeTotal(a: Warehouse, b: Warehouse)
    ensures a.name == b.name || Before(a, b) || Before(b, a)
  {
    LessTotal(a.name, b.name);
  }

  function Insert(w: Warehouse, s: seq<Warehouse>): (r: seq<Warehouse>)
    ensures multiset(r) == multiset(s) + multiset{w}
  {
    if s == [] || !Before(s[0], w) then [w] + s
    else assert s == [s[0]] + s[1..]; [s[0]] + Insert(w, s[1..])
  }

  /** `sorted(warehouses, key=...)`, which is stable. */
  function Ordered(ws: seq<Warehouse>): (r: seq<Warehouse>)
    ensures multiset(r) == multiset(ws)
  {
    if ws == [] then [] else assert ws == [ws[0]] + ws[1..]; Insert(ws[0], Ordered(ws[1..]))
  }

  predicate DistinctNames(ws: seq<Warehouse>) {
    forall i, j | 0 <= i < j < |ws| :: ws[i].name != ws[j].name
  }

  ghost predicate InOrder(ws: seq<Warehouse>) {
    forall i, j :: 0 <= i < j < |ws| ==> Before(ws[i], ws[j])
  }

  lemma HeadBefore(s: seq<Warehouse>, w: Warehouse)
    requires s != [] && InOrder(s) && Before(s[0], w) && InOrder(Insert(w, s[1..]))
    ensures InOrder([s[0]] + Insert(w, s[1..]))
  {
    var t := Insert(w, s[1..]);
    forall x | x in t ensures Before(s[0], x) {
      assert x in multiset(t);
      if x != w { assert x in s[1..]; }
    }
  }

  lemma {:induction false} InsertInOrder(w: Warehouse, s: seq<Warehouse>)
    requires InOrder(s) && forall x :: x in s ==> x.name != w.name
    ensures InOrder(Insert(w, s))
  {
    if s != [] {
      BeforeTotal(s[0], w);
      if Before(s[0], w) {
        InsertInOrder(w, s[1..]);
        HeadBefore(s, w);
      } else {
        forall x | x in s ensures Before(w, x) {
          if x != s[0] { BeforeTransitive(w, s[0], x); }
        }
      }
    }
  }

  lemma {:induction false} OrderedInOrder(ws: seq<Warehouse>)
    requires DistinctNames(ws)
    ensures InOrder(Ordered(ws))
  {
    if ws != [] {
      OrderedInOrder(ws[1..]);
      forall x | x in Ordered(ws[1..]) ensures x.name != ws[0].name {
        assert x in multiset(ws[1..]);
      }
      InsertInOrder(ws[0], Ordered(ws[1..]));
    }
  }

  lemma HeadsAgree(a: seq<Warehouse>, b: seq<Warehouse>)
    requires InOrder(a) && InOrder(b) && multiset(a) == multiset(b) && a != []
    ensures b != [] && a[0] == b[0]
  {
    assert a[0] in multiset(a);
    assert a[0] in b;
    assert b[0] in multiset(b);
    assert b[0] in a;
    if a[0] != b[0] {
      BeforeAsymmetric(a[0], b[0]);
    }
  }

  lemma TailMultiset<T>(s: seq<T>)
    requires s != []
    ensures multiset(s[1..]) == multiset(s) - multiset{s[0]}
  {
    assert s == [s[0]] + s[1..];
  }

  /** Ordered lists with the same elements are the same list. */
  lemma {:induction false} OrderUnique(a: seq<Warehouse>, b: seq<Warehouse>)
    requires InOrder(a) && InOrder(b) && multiset(a) == multiset(b)
    ensures a == b
  {
    if a == [] {
      assert |multiset(b)| == |b|;
    } else {
      HeadsAgree(a, b);
      TailMultiset(a);
      TailMultiset(b);
      OrderUnique(a[1..], b[1..]);
      assert a == [a[0]] + a[1..] && b == [b[0]] + b[1..];
    }
  }

  lemma PermutedNames(a: seq<Warehouse>, b: seq<Warehouse>)
    requires DistinctNames(a) && multiset(a) == multiset(b)
    ensures DistinctNames(b)
  {
    forall i, j | 0 <= i < j < |b| ensures b[i].name != b[j].name {
      if b[i].name == b[j].name {
        assert b[i] in multiset(b) && b[j] in multiset(b);
        assert b[i] in a && b[j] in a;
        assert b[i] == b[j];
        TwiceInMultiset(b, i, j);
        var k :| 0 <= k < |a| && a[k] == b[i];
        OnceInMultiset(a, k);
        assert false;
      }
    }
  }

  lemma TwiceInMultiset<T>(s: seq<T>, i: nat, j: nat)
    requires i < j < |s| && s[i] == s[j]
    ensures multiset(s)[s[i]] >= 2
  {
    assert s == s[..j] + [s[j]] + s[j + 1..];
    assert s[i] in s[..j];
  }

  lemma OnceInMultiset(s: seq<Warehouse>, k: nat)
    requires k < |s| && DistinctNames(s)
    ensures multiset(s)[s[k]] == 1
  {
    assert s == s[..k] + [s[k]] + s[k + 1..];
    assert s[k] !in s[..k];
    assert s[k] !in s[k + 1..];
  }

  /** The order of the API's listing does not matter. */
  lemma OrderedPermutation(a: seq<Warehouse>, b: seq<Warehouse>)
    requires DistinctNames(a) && multiset(a) == multiset(b)
    ensures Ordered(a) == Ordered(b)
  {
    PermutedNames(a, b);
    OrderedInOrder(a);
    OrderedInOrder(b);
    OrderUnique(Ordered(a), Ordered(b));
  }
}
