/** The text of `resource-groups.json`, and a reader of JSON that gets the document back. */
module DocumentText {
  import opened Text
  import opened GroupRouting

  /** A value with its keys in order, as `json.dumps` is given it. */
  datatype Value = Literal(text: string) | Number(n: int) | List(items: seq<Value>) | Record(fields: seq<Field>)

  datatype Field = Field(key: string, value: Value)

  function Quoted(s: string): string {
    "\"" + s + "\""
  }

  function Signed(n: int): string {
    if n < 0 then "-" + Decimal(-n) else Decimal(n)
  }

  /** `json.dumps` with `indent=2`, for texts that need no escape; `newline` is a line break
      and the indentation so far. */
  function Dump(v: Value, newline: string): string {
    match v
    case Literal(text) => Quoted(text)
    case Number(n) => Signed(n)
    case List(items) =>
      if items == [] then "[]" else "[" + DumpItems(items, newline + "  ") + newline + "]"
    case Record(fields) =>
      if fields == [] then "{}" else "{" + DumpFields(fields, newline + "  ") + newline + "}"
  }

  function DumpItems(items: seq<Value>, newline: string): string {
    if items == [] then "" else
      newline + Dump(items[0], newline) + (if |items| == 1 then "" else ",") + DumpItems(items[1..], newline)
  }

  function DumpFields(fields: seq<Field>, newline: string): string {
    if fields == [] then "" else
      newline + Quoted(fields[0].key) + ": " + Dump(fields[0].value, newline) + (if |fields| == 1 then "" else ",")
      + DumpFields(fields[1..], newline)
  }

  function Limits(memory: string, running: int, queued: int): seq<Field> {
    [Field("softMemoryLimit", Literal(memory)), Field("hardConcurrencyLimit", Number(running)),
     Field("maxQueued", Number(queued))]
  }

  function SubValue(g: SubGroup): Value {
    Record([Field("name", Literal(g.name))] + Limits(g.softMemoryLimit, g.hardConcurrencyLimit, g.maxQueued)
           + if g.schedulingPolicy.Some? then [Field("schedulingPolicy", Literal(g.schedulingPolicy.value))] else [])
  }

  function RootValue(g: RootGroup): Value {
    Record([Field("name", Literal(g.name))] + Limits(g.softMemoryLimit, g.hardConcurrencyLimit, g.maxQueued)
           + if g.subGroups.Some? then [Field("subGroups", List(SubValues(g.subGroups.value)))] else [])
  }

  function SelectorValue(s: Selector): Value {
    var user := if s.userGroup.Some? then [Field("userGroup", Literal(s.userGroup.value))] else [];
    Record(user + [Field("group", Literal(s.group))])
  }

  function SubValues(gs: seq<SubGroup>): seq<Value> {
    seq(|gs|, i requires 0 <= i < |gs| => SubValue(gs[i]))
  }

  function RootValues(gs: seq<RootGroup>): seq<Value> {
    seq(|gs|, i requires 0 <= i < |gs| => RootValue(gs[i]))
  }

  function SelectorValues(ss: seq<Selector>): seq<Value> {
    seq(|ss|, i requires 0 <= i < |ss| => SelectorValue(ss[i]))
  }

  function DocumentValue(d: Document): Value {
    Record([Field("rootGroups", List(RootValues(d.rootGroups))), Field("selectors", List(SelectorValues(d.selectors)))])
  }

  /** The text of a document. */
  function TextOf(d: Document): string {
    Dump(DocumentValue(d), "\n") + "\n"
  }

  // ---------- a reader of JSON ----------

  datatype Parsed<+T> = Malformed | Parsed(value: T, rest: string)

  predicate Blank(c: char) { c == ' ' || c == '\n' }

  function Skip(s: string): (r: string)
    ensures |r| <= |s|
  {
    if s != "" && Blank(s[0]) then Skip(s[1..]) else s
  }

  /** A text, after its opening quote. */
  function ParseString(s: string): (p: Parsed<string>)
    ensures p.Parsed? ==> |p.rest| < |s|
  {
    var i := Find(s, '"');
    if i == |s| then Malformed else Parsed(s[..i], s[i + 1..])
  }

  function DigitCount(s: string): (n: nat)
    ensures n <= |s| && forall i :: 0 <= i < n ==> Digit(s[i])
  {
    if s != "" && Digit(s[0]) then 1 + DigitCount(s[1..]) else 0
  }

  function NatOf(digits: string): nat
    requires forall i :: 0 <= i < |digits| ==> Digit(digits[i])
  {
    if digits == "" then 0 else
      var last := digits[|digits| - 1];
      assert Digit(last);
      10 * NatOf(digits[..|digits| - 1]) + (last as int - '0' as int)
  }

  function ParseNatural(s: string): (p: Parsed<int>)
    ensures p.Parsed? ==> |p.rest| < |s|
  {
    var k := DigitCount(s);
    if k == 0 then Malformed else Parsed(NatOf(s[..k]), s[k..])
  }

  function ParseNumber(s: string): (p: Parsed<int>)
    ensures p.Parsed? ==> |p.rest| < |s|
  {
    if s != "" && s[0] == '-' then
      var p := ParseNatural(s[1..]);
      if p.Malformed? then Malformed else Parsed(-p.value, p.rest)
    else
      var p := ParseNatural(s);
      if p.Malformed? then Malformed else Parsed(p.value, p.rest)
  }

  function ParseValue(text: string): (p: Parsed<Value>)
    ensures p.Parsed? ==> |p.rest| < |text|
    decreases |text|, 0
  {
    var s := Skip(text);
    if s == "" then Malformed
    else if s[0] == '"' then
      var p := ParseString(s[1..]);
      if p.Malformed? then Malformed else Parsed(Literal(p.value), p.rest)
    else if s[0] == '[' then
      var t := Skip(s[1..]);
      if t != "" && t[0] == ']' then Parsed(List([]), t[1..])
      else
        var p := ParseItems(s[1..]);
        if p.Malformed? then Malformed else Parsed(List(p.value), p.rest)
    else if s[0] == '{' then
      var t := Skip(s[1..]);
      if t != "" && t[0] == '}' then Parsed(Record([]), t[1..])
      else
        var p := ParseFields(s[1..]);
        if p.Malformed? then Malformed else Parsed(Record(p.value), p.rest)
    else
      var p := ParseNumber(s);
      if p.Malformed? then Malformed else Parsed(Number(p.value), p.rest)
  }

  /** Values up to the closing bracket. */
  function ParseItems(s: string): (p: Parsed<seq<Value>>)
    ensures p.Parsed? ==> |p.rest| < |s|
    decreases |s|, 1
  {
    var p := ParseValue(s);
    if p.Malformed? then Malformed else
      var t := Skip(p.rest);
      if t != "" && t[0] == ']' then Parsed([p.value], t[1..])
      else if t != "" && t[0] == ',' then
        var q := ParseItems(t[1..]);
        if q.Malformed? then Malformed else Parsed([p.value] + q.value, q.rest)
      else Malformed
  }

  /** One key and its value. */
  function ParseField(text: string): (p: Parsed<Field>)
    ensures p.Parsed? ==> |p.rest| < |text|
    decreases |text|, 0
  {
    var s := Skip(text);
    if s == "" || s[0] != '"' then Malformed else
      var k := ParseString(s[1..]);
      if k.Malformed? || Skip(k.rest) == "" || Skip(k.rest)[0] != ':' then Malformed else
        var p := ParseValue(Skip(k.rest)[1..]);
        if p.Malformed? then Malformed else Parsed(Field(k.value, p.value), p.rest)
  }

  /** Fields up to the closing brace. */
  function ParseFields(s: string): (p: Parsed<seq<Field>>)
    ensures p.Parsed? ==> |p.rest| < |s|
    decreases |s|, 1
  {
    var p := ParseField(s);
    if p.Malformed? then Malformed else
      var t := Skip(p.rest);
      if t != "" && t[0] == '}' then Parsed([p.value], t[1..])
      else if t != "" && t[0] == ',' then
        var q := ParseFields(t[1..]);
        if q.Malformed? then Malformed else Parsed([p.value] + q.value, q.rest)
      else Malformed
  }

  // ---------- reading back what was dumped ----------

  /** Texts JSON writes as they are. */
  predicate Unescaped(s: string) {
    forall c | c in s :: ' ' <= c <= '~' && c != '"' && c != '\\'
  }

  predicate PlainValue(v: Value) {
    match v
    case Literal(text) => Unescaped(text)
    case Number(_) => true
    case List(items) => forall i | 0 <= i < |items| :: PlainValue(items[i])
    case Record(fields) => forall i | 0 <= i < |fields| :: Unescaped(fields[i].key) && PlainValue(fields[i].value)
  }

  predicate AllBlank(s: string) {
    forall c | c in s :: Blank(c)
  }

  /** What may follow a value. */
  predicate Follows(rest: string) {
    rest == "" || !Digit(rest[0])
  }

  lemma {:induction false} SkipBlanks(a: string, b: string)
    requires AllBlank(a)
    ensures Skip(a + b) == Skip(b)
  {
    if a == "" {
      assert a + b == b;
    } else {
      assert (a + b)[1..] == a[1..] + b;
      SkipBlanks(a[1..], b);
    }
  }

  lemma {:induction false} DigitsBefore(a: string, b: string)
    requires (forall i :: 0 <= i < |a| ==> Digit(a[i])) && Follows(b)
    ensures DigitCount(a + b) == |a|
  {
    if a == "" {
      assert a + b == b;
    } else {
      assert (a + b)[1..] == a[1..] + b;
      DigitsBefore(a[1..], b);
    }
  }

  lemma DigitChar(d: nat)
    requires d < 10
    ensures Digit("0123456789"[d]) && "0123456789"[d] as int - '0' as int == d
  {
  }

  lemma {:induction false} DecimalRound(n: nat)
    ensures Decimal(n) != "" && forall i :: 0 <= i < |Decimal(n)| ==> Digit(Decimal(n)[i])
    ensures NatOf(Decimal(n)) == n
  {
    DigitChar(n % 10);
    if n < 10 {
      assert Decimal(n)[..0] == "";
    } else {
      DecimalRound(n / 10);
      var s := Decimal(n);
      assert s[..|s| - 1] == Decimal(n / 10);
    }
  }

  lemma NaturalRound(n: nat, rest: string)
    requires Follows(rest)
    ensures ParseNatural(Decimal(n) + rest) == Parsed(n, rest)
    ensures Decimal(n) != "" && Digit(Decimal(n)[0])
  {
    DecimalRound(n);
    DigitsBefore(Decimal(n), rest);
    var t := Decimal(n) + rest;
    assert t[..|Decimal(n)|] == Decimal(n) && t[|Decimal(n)|..] == rest;
  }

  lemma SignRound(digits: string, n: int, rest: string)
    requires digits != "" && Digit(digits[0]) && ParseNatural(digits + rest) == Parsed(n, rest)
    ensures ParseNumber(digits + rest) == Parsed(n, rest)
    ensures ParseNumber("-" + digits + rest) == Parsed(-n, rest)
  {
    assert ("-" + digits + rest)[1..] == digits + rest;
    assert (digits + rest)[0] == digits[0];
  }

  lemma NumberRound(n: int, rest: string)
    requires Follows(rest)
    ensures ParseNumber(Signed(n) + rest) == Parsed(n, rest)
    ensures Signed(n) != "" && (Digit(Signed(n)[0]) || Signed(n)[0] == '-') && (Signed(n)[0] == '-' <==> n < 0)
  {
    var size := if n < 0 then -n else n;
    NaturalRound(size, rest);
    SignRound(Decimal(size), size, rest);
  }

  lemma StringRound(text: string, rest: string)
    requires Unescaped(text)
    ensures ParseString(text + "\"" + rest) == Parsed(text, rest)
  {
    FindAfter(text, '"', rest);
    var s := text + "\"" + rest;
    assert s[..|text|] == text && s[|text| + 1..] == rest;
  }

  /** The parse of a value does not depend on the blanks before it. */
  lemma ValueAfterBlanks(a: string, b: string)
    requires AllBlank(a)
    ensures ParseValue(a + b) == ParseValue(b) && ParseField(a + b) == ParseField(b)
  {
    SkipBlanks(a, b);
  }

  lemma LiteralRound(text: string, rest: string)
    requires Unescaped(text)
    ensures ParseValue(Quoted(text) + rest) == Parsed(Literal(text), rest)
  {
    StringRound(text, rest);
    var s := Quoted(text) + rest;
    assert s[1..] == text + "\"" + rest;
  }

  lemma PlainNumberRound(n: int, rest: string)
    requires Follows(rest)
    ensures ParseValue(Signed(n) + rest) == Parsed(Number(n), rest)
  {
    NumberRound(n, rest);
    var s := Signed(n) + rest;
    assert s[0] == Signed(n)[0];
  }

  /** The first character of a dumped value. */
  lemma DumpStarts(v: Value, newline: string)
    ensures var s := Dump(v, newline);
      s != "" && !Blank(s[0]) && s[0] != ']' && s[0] != '}' && s[0] != ','
  {
    if v.Number? { NumberRound(v.n, ""); }
  }

  /** What follows a value: blanks, a closing character, and the rest. */
  lemma CloseFollows(end: string, close: char, rest: string)
    requires AllBlank(end) && !Blank(close) && !Digit(close)
    ensures Follows(end + [close] + rest)
    ensures Skip(end + [close] + rest) == [close] + rest
  {
    assert end + [close] + rest == end + ([close] + rest);
    SkipBlanks(end, [close] + rest);
    if end != "" { assert Blank(end[0]); }
  }

  lemma FirstOf(c: char, t: string)
    ensures ([c] + t)[1..] == t && ([c] + t)[0] == c && (!Blank(c) ==> Skip([c] + t) == [c] + t)
  {
  }

  lemma LastItem(s: string, v: Value, after: string, rest: string)
    requires ParseValue(s) == Parsed(v, after) && Skip(after) == "]" + rest
    ensures ParseItems(s) == Parsed([v], rest)
  {
    FirstOf(']', rest);
  }

  lemma MoreItems(s: string, v: Value, tail: string)
    requires ParseValue(s) == Parsed(v, "," + tail) && ParseItems(tail).Parsed?
    ensures ParseItems(s) == Parsed([v] + ParseItems(tail).value, ParseItems(tail).rest)
  {
    FirstOf(',', tail);
  }

  lemma OpenList(inner: string, items: seq<Value>, rest: string)
    requires ParseItems(inner) == Parsed(items, rest) && Skip(inner) != "" && Skip(inner)[0] != ']'
    ensures ParseValue("[" + inner) == Parsed(List(items), rest)
  {
    FirstOf('[', inner);
  }

  lemma LastField(s: string, f: Field, after: string, rest: string)
    requires ParseField(s) == Parsed(f, after) && Skip(after) == "}" + rest
    ensures ParseFields(s) == Parsed([f], rest)
  {
    FirstOf('}', rest);
  }

  lemma MoreFields(s: string, f: Field, tail: string)
    requires ParseField(s) == Parsed(f, "," + tail) && ParseFields(tail).Parsed?
    ensures ParseFields(s) == Parsed([f] + ParseFields(tail).value, ParseFields(tail).rest)
  {
    FirstOf(',', tail);
  }

  lemma OpenRecord(inner: string, fields: seq<Field>, rest: string)
    requires ParseFields(inner) == Parsed(fields, rest) && Skip(inner) != "" && Skip(inner)[0] != '}'
    ensures ParseValue("{" + inner) == Parsed(Record(fields), rest)
  {
    FirstOf('{', inner);
  }

  lemma NoItems(rest: string)
    ensures ParseValue("[]" + rest) == Parsed(List([]), rest)
    ensures ParseValue("{}" + rest) == Parsed(Record([]), rest)
  {
    FirstOf('[', "]" + rest);
    FirstOf(']', rest);
    FirstOf('{', "}" + rest);
    FirstOf('}', rest);
    assert "[]" + rest == "[" + ("]" + rest) && "{}" + rest == "{" + ("}" + rest);
  }

  lemma Regroup(a: string, b: string, c: string, d: string, e: string)
    ensures a + b + c + d + e == a + (b + (c + d + e))
  {
  }

  /** A dumped value, with anything after it that is not a digit, reads as that value. */
  lemma {:induction false} ValueRound(v: Value, newline: string, rest: string)
    requires PlainValue(v) && AllBlank(newline) && Follows(rest)
    ensures ParseValue(Dump(v, newline) + rest) == Parsed(v, rest)
    decreases v, 0
  {
    match v
    case Literal(text) => LiteralRound(text, rest);
    case Number(n) => PlainNumberRound(n, rest);
    case List(items) => ListRound(items, newline, rest);
    case Record(fields) => RecordRound(fields, newline, rest);
  }

  lemma {:induction false} ListRound(items: seq<Value>, newline: string, rest: string)
    requires (forall i :: 0 <= i < |items| ==> PlainValue(items[i])) && AllBlank(newline)
    ensures ParseValue(Dump(List(items), newline) + rest) == Parsed(List(items), rest)
    decreases items, 1
  {
    if items == [] {
      NoItems(rest);
    } else {
      var dumped := DumpItems(items, newline + "  ");
      ItemsRound(items, newline + "  ", newline, rest);
      ItemsStart(items, newline + "  ", newline + "]" + rest);
      OpenList(dumped + (newline + "]" + rest), items, rest);
      Regroup("[", dumped, newline, "]", rest);
    }
  }

  lemma {:induction false} RecordRound(fields: seq<Field>, newline: string, rest: string)
    requires forall i :: 0 <= i < |fields| ==> Unescaped(fields[i].key) && PlainValue(fields[i].value)
    requires AllBlank(newline)
    ensures ParseValue(Dump(Record(fields), newline) + rest) == Parsed(Record(fields), rest)
    decreases fields, 1
  {
    if fields == [] {
      NoItems(rest);
    } else {
      var dumped := DumpFields(fields, newline + "  ");
      FieldsRound(fields, newline + "  ", newline, rest);
      FieldsStart(fields, newline + "  ", newline + "}" + rest);
      OpenRecord(dumped + (newline + "}" + rest), fields, rest);
      Regroup("{", dumped, newline, "}", rest);
    }
  }

  /** After the blanks comes the first item, not the closing bracket. */
  lemma ItemsStart(items: seq<Value>, newline: string, rest: string)
    requires items != [] && AllBlank(newline)
    ensures var t := Skip(DumpItems(items, newline) + rest);
      t != "" && t[0] != ']'
  {
    var head := Dump(items[0], newline);
    var tail := (if |items| == 1 then "" else ",") + DumpItems(items[1..], newline) + rest;
    assert DumpItems(items, newline) + rest == newline + (head + tail);
    SkipBlanks(newline, head + tail);
    DumpStarts(items[0], newline);
    assert (head + tail)[0] == head[0];
  }

  lemma ItemsText(items: seq<Value>, newline: string, after: string)
    requires items != []
    ensures DumpItems(items, newline) + after == newline + (Dump(items[0], newline) +
      if |items| == 1 then after else "," + (DumpItems(items[1..], newline) + after))
  {
    if |items| == 1 { assert DumpItems(items[1..], newline) == ""; }
  }

  lemma ItemThen(v: Value, newline: string, next: string)
    requires PlainValue(v) && AllBlank(newline) && Follows(next)
    ensures ParseValue(newline + (Dump(v, newline) + next)) == Parsed(v, next)
    decreases v, 1
  {
    ValueAfterBlanks(newline, Dump(v, newline) + next);
    ValueRound(v, newline, next);
  }

  lemma ItemThenClose(v: Value, newline: string, end: string, rest: string)
    requires PlainValue(v) && AllBlank(newline) && AllBlank(end)
    ensures ParseItems(newline + (Dump(v, newline) + (end + "]" + rest))) == Parsed([v], rest)
    decreases v, 2
  {
    CloseFollows(end, ']', rest);
    ItemThen(v, newline, end + "]" + rest);
    LastItem(newline + (Dump(v, newline) + (end + "]" + rest)), v, end + "]" + rest, rest);
  }

  lemma ItemThenMore(v: Value, newline: string, tail: string, more: seq<Value>, rest: string)
    requires PlainValue(v) && AllBlank(newline) && ParseItems(tail) == Parsed(more, rest)
    ensures ParseItems(newline + (Dump(v, newline) + ("," + tail))) == Parsed([v] + more, rest)
    decreases v, 2
  {
    ItemThen(v, newline, "," + tail);
    MoreItems(newline + (Dump(v, newline) + ("," + tail)), v, tail);
  }

  lemma {:induction false} ItemsRound(items: seq<Value>, newline: string, end: string, rest: string)
    requires items != [] && forall i :: 0 <= i < |items| ==> PlainValue(items[i])
    requires AllBlank(newline) && AllBlank(end)
    ensures ParseItems(DumpItems(items, newline) + (end + "]" + rest)) == Parsed(items, rest)
    decreases items, 0
  {
    var after := end + "]" + rest;
    HeadAndTail(items);
    ItemsText(items, newline, after);
    if |items| == 1 {
      ItemThenClose(items[0], newline, end, rest);
    } else {
      ItemsRound(items[1..], newline, end, rest);
      ItemThenMore(items[0], newline, DumpItems(items[1..], newline) + after, items[1..], rest);
    }
  }

  lemma HeadAndTail<T>(s: seq<T>)
    requires s != []
    ensures s == [s[0]] + s[1..] && (|s| == 1 ==> s == [s[0]])
  {
  }

  lemma KeyText(key: string, rest: string)
    ensures Quoted(key) + ": " + rest == "\"" + (key + "\"" + (": " + rest)) && ": " + rest == ":" + (" " + rest)
  {
  }

  lemma KeyStep(key: string, rest: string)
    requires Unescaped(key)
    ensures var p := ParseValue(" " + rest);
      ParseField(Quoted(key) + ": " + rest) ==
        if p.Malformed? then Malformed else Parsed(Field(key, p.value), p.rest)
  {
    var after := ": " + rest;
    StringRound(key, after);
    FirstOf('"', key + "\"" + after);
    FirstOf(':', " " + rest);
    KeyText(key, rest);
  }

  lemma FieldRound(f: Field, newline: string, rest: string)
    requires Unescaped(f.key) && ParseValue(Dump(f.value, newline) + rest) == Parsed(f.value, rest)
    ensures ParseField(Quoted(f.key) + ": " + (Dump(f.value, newline) + rest)) == Parsed(f, rest)
  {
    KeyStep(f.key, Dump(f.value, newline) + rest);
    ValueAfterBlanks(" ", Dump(f.value, newline) + rest);
  }

  lemma FieldsText(fields: seq<Field>, newline: string, after: string)
    requires fields != []
    ensures DumpFields(fields, newline) + after ==
      newline + (Quoted(fields[0].key) + ": " + (Dump(fields[0].value, newline) +
        if |fields| == 1 then after else "," + (DumpFields(fields[1..], newline) + after)))
  {
    if |fields| == 1 { assert DumpFields(fields[1..], newline) == ""; }
  }

  lemma FieldsStart(fields: seq<Field>, newline: string, rest: string)
    requires fields != [] && AllBlank(newline)
    ensures var t := Skip(DumpFields(fields, newline) + rest);
      t != "" && t[0] != '}'
  {
    FieldsText(fields, newline, rest);
    var text := Quoted(fields[0].key) + ": " + (Dump(fields[0].value, newline) +
      if |fields| == 1 then rest else "," + (DumpFields(fields[1..], newline) + rest));
    SkipBlanks(newline, text);
    assert text[0] == '"';
  }

  lemma FieldThen(f: Field, newline: string, next: string)
    requires Unescaped(f.key) && PlainValue(f.value) && AllBlank(newline) && Follows(next)
    ensures ParseField(newline + (Quoted(f.key) + ": " + (Dump(f.value, newline) + next))) == Parsed(f, next)
    decreases f, 1
  {
    ValueAfterBlanks(newline, Quoted(f.key) + ": " + (Dump(f.value, newline) + next));
    ValueRound(f.value, newline, next);
    FieldRound(f, newline, next);
  }

  lemma FieldThenClose(f: Field, newline: string, end: string, rest: string)
    requires Unescaped(f.key) && PlainValue(f.value) && AllBlank(newline) && AllBlank(end)
    ensures ParseFields(newline + (Quoted(f.key) + ": " + (Dump(f.value, newline) + (end + "}" + rest))))
      == Parsed([f], rest)
    decreases f, 2
  {
    var after := end + "}" + rest;
    CloseFollows(end, '}', rest);
    FieldThen(f, newline, after);
    LastField(newline + (Quoted(f.key) + ": " + (Dump(f.value, newline) + after)), f, after, rest);
  }

  lemma FieldThenMore(f: Field, newline: string, tail: string, more: seq<Field>, rest: string)
    requires Unescaped(f.key) && PlainValue(f.value) && AllBlank(newline) && ParseFields(tail) == Parsed(more, rest)
    ensures ParseFields(newline + (Quoted(f.key) + ": " + (Dump(f.value, newline) + ("," + tail))))
      == Parsed([f] + more, rest)
    decreases f, 2
  {
    FieldThen(f, newline, "," + tail);
    MoreFields(newline + (Quoted(f.key) + ": " + (Dump(f.value, newline) + ("," + tail))), f, tail);
  }

  lemma {:induction false} FieldsRound(fields: seq<Field>, newline: string, end: string, rest: string)
    requires fields != []
    requires forall i :: 0 <= i < |fields| ==> Unescaped(fields[i].key) && PlainValue(fields[i].value)
    requires AllBlank(newline) && AllBlank(end)
    ensures ParseFields(DumpFields(fields, newline) + (end + "}" + rest)) == Parsed(fields, rest)
    decreases fields, 0
  {
    var after := end + "}" + rest;
    HeadAndTail(fields);
    FieldsText(fields, newline, after);
    if |fields| == 1 {
      FieldThenClose(fields[0], newline, end, rest);
    } else {
      FieldsRound(fields[1..], newline, end, rest);
      FieldThenMore(fields[0], newline, DumpFields(fields[1..], newline) + after, fields[1..], rest);
    }
  }

  // ---------- the document behind a value ----------

  function Lookup(fields: seq<Field>, key: string): Option<Value> {
    if fields == [] then None else if fields[0].key == key then Some(fields[0].value) else Lookup(fields[1..], key)
  }

  function Member(v: Value, key: string): Option<Value> {
    if v.Record? then Lookup(v.fields, key) else None
  }

  function TextAt(v: Value, key: string): Option<string> {
    match Member(v, key)
    case Some(Literal(text)) => Some(text)
    case _ => None
  }

  function NumberAt(v: Value, key: string): Option<int> {
    match Member(v, key)
    case Some(Number(n)) => Some(n)
    case _ => None
  }

  function ItemsAt(v: Value, key: string): Option<seq<Value>> {
    match Member(v, key)
    case Some(List(items)) => Some(items)
    case _ => None
  }

  function ReadSub(v: Value): Option<SubGroup> {
    match (TextAt(v, "name"), TextAt(v, "softMemoryLimit"), NumberAt(v, "hardConcurrencyLimit"),
           NumberAt(v, "maxQueued"))
    case (Some(name), Some(memory), Some(running), Some(queued)) =>
      Some(SubGroup(name, memory, running, queued, TextAt(v, "schedulingPolicy")))
    case _ => None
  }

  function ReadSubs(vs: seq<Value>): Option<seq<SubGroup>> {
    if vs == [] then Some([]) else
      match (ReadSub(vs[0]), ReadSubs(vs[1..]))
      case (Some(g), Some(gs)) => Some([g] + gs)
      case _ => None
  }

  function ReadRoot(v: Value): Option<RootGroup> {
    var subs := match ItemsAt(v, "subGroups") case Some(items) => ReadSubs(items) case None => None;
    match (TextAt(v, "name"), TextAt(v, "softMemoryLimit"), NumberAt(v, "hardConcurrencyLimit"),
           NumberAt(v, "maxQueued"))
    case (Some(name), Some(memory), Some(running), Some(queued)) =>
      Some(RootGroup(name, memory, running, queued, subs))
    case _ => None
  }

  function ReadRoots(vs: seq<Value>): Option<seq<RootGroup>> {
    if vs == [] then Some([]) else
      match (ReadRoot(vs[0]), ReadRoots(vs[1..]))
      case (Some(g), Some(gs)) => Some([g] + gs)
      case _ => None
  }

  function ReadSelector(v: Value): Option<Selector> {
    match TextAt(v, "group")
    case Some(group) => Some(Selector(TextAt(v, "userGroup"), group))
    case None => None
  }

  function ReadSelectors(vs: seq<Value>): Option<seq<Selector>> {
    if vs == [] then Some([]) else
      match (ReadSelector(vs[0]), ReadSelectors(vs[1..]))
      case (Some(s), Some(ss)) => Some([s] + ss)
      case _ => None
  }

  function ReadDocument(v: Value): Option<Document> {
    match (ItemsAt(v, "rootGroups"), ItemsAt(v, "selectors"))
    case (Some(roots), Some(selectors)) =>
      (match (ReadRoots(roots), ReadSelectors(selectors))
       case (Some(gs), Some(ss)) => Some(Document(gs, ss))
       case _ => None)
    case _ => None
  }

  /** A text is one JSON value; the document is read from it by its keys. */
  function ReadText(text: string): Option<Document> {
    var p := ParseValue(text);
    if p.Parsed? && Skip(p.rest) == "" then ReadDocument(p.value) else None
  }

  lemma {:induction false} LookupAt(fields: seq<Field>, i: nat, key: string)
    requires i < |fields| && fields[i].key == key && forall j :: 0 <= j < i ==> fields[j].key != key
    ensures Lookup(fields, key) == Some(fields[i].value)
  {
    if i > 0 { LookupAt(fields[1..], i - 1, key); }
  }

  lemma {:induction false} LookupNone(fields: seq<Field>, key: string)
    requires forall j :: 0 <= j < |fields| ==> fields[j].key != key
    ensures Lookup(fields, key) == None
  {
    if fields != [] { LookupNone(fields[1..], key); }
  }

  lemma KeysDiffer()
    ensures "name" != "softMemoryLimit" && "name" != "hardConcurrencyLimit" && "name" != "maxQueued"
    ensures "softMemoryLimit" != "hardConcurrencyLimit" && "softMemoryLimit" != "maxQueued"
    ensures "hardConcurrencyLimit" != "maxQueued"
    ensures forall k | k in ["schedulingPolicy", "subGroups"] ::
      k != "name" && k != "softMemoryLimit" && k != "hardConcurrencyLimit" && k != "maxQueued"
    ensures "userGroup" != "group" && "rootGroups" != "selectors"
  {
    assert |"name"| == 4 && |"softMemoryLimit"| == 15 && |"hardConcurrencyLimit"| == 20 && |"maxQueued"| == 9;
    assert |"schedulingPolicy"| == 16 && "subGroups"[0] == 's' && "maxQueued"[0] == 'm';
    assert |"userGroup"| == 9 && |"group"| == 5 && |"rootGroups"| == 10 && |"selectors"| == 9;
  }

  /** The five keys of a group, the last one there or not. */
  lemma GroupKeys(name: string, memory: string, running: int, queued: int, key: string, last: Option<Value>)
    requires key in ["schedulingPolicy", "subGroups"]
    ensures var v := Record([Field("name", Literal(name))] + Limits(memory, running, queued)
                            + if last.Some? then [Field(key, last.value)] else []);
      && TextAt(v, "name") == Some(name) && TextAt(v, "softMemoryLimit") == Some(memory)
      && NumberAt(v, "hardConcurrencyLimit") == Some(running) && NumberAt(v, "maxQueued") == Some(queued)
      && Member(v, key) == last
  {
    var fields := [Field("name", Literal(name))] + Limits(memory, running, queued)
                  + if last.Some? then [Field(key, last.value)] else [];
    KeysDiffer();
    LookupAt(fields, 0, "name");
    LookupAt(fields, 1, "softMemoryLimit");
    LookupAt(fields, 2, "hardConcurrencyLimit");
    LookupAt(fields, 3, "maxQueued");
    if last.Some? { LookupAt(fields, 4, key); } else { LookupNone(fields, key); }
  }

  lemma SubRound(g: SubGroup)
    ensures ReadSub(SubValue(g)) == Some(g)
  {
    GroupKeys(g.name, g.softMemoryLimit, g.hardConcurrencyLimit, g.maxQueued, "schedulingPolicy",
              if g.schedulingPolicy.Some? then Some(Literal(g.schedulingPolicy.value)) else None);
  }

  lemma {:induction false} SubsRound(gs: seq<SubGroup>)
    ensures ReadSubs(SubValues(gs)) == Some(gs)
  {
    if gs != [] {
      SubRound(gs[0]);
      SubsRound(gs[1..]);
      assert SubValues(gs)[1..] == SubValues(gs[1..]) && gs == [gs[0]] + gs[1..];
    }
  }

  lemma RootRound(g: RootGroup)
    ensures ReadRoot(RootValue(g)) == Some(g)
  {
    GroupKeys(g.name, g.softMemoryLimit, g.hardConcurrencyLimit, g.maxQueued, "subGroups",
              if g.subGroups.Some? then Some(List(SubValues(g.subGroups.value))) else None);
    if g.subGroups.Some? { SubsRound(g.subGroups.value); }
  }

  lemma {:induction false} RootsRound(gs: seq<RootGroup>)
    ensures ReadRoots(RootValues(gs)) == Some(gs)
  {
    if gs != [] {
      RootRound(gs[0]);
      RootsRound(gs[1..]);
      assert RootValues(gs)[1..] == RootValues(gs[1..]) && gs == [gs[0]] + gs[1..];
    }
  }

  lemma SelectorRound(s: Selector)
    ensures ReadSelector(SelectorValue(s)) == Some(s)
  {
    var fields := SelectorValue(s).fields;
    KeysDiffer();
    LookupAt(fields, |fields| - 1, "group");
    if s.userGroup.Some? { LookupAt(fields, 0, "userGroup"); } else { LookupNone(fields, "userGroup"); }
  }

  lemma {:induction false} SelectorsRound(ss: seq<Selector>)
    ensures ReadSelectors(SelectorValues(ss)) == Some(ss)
  {
    if ss != [] {
      SelectorRound(ss[0]);
      SelectorsRound(ss[1..]);
      assert SelectorValues(ss)[1..] == SelectorValues(ss[1..]) && ss == [ss[0]] + ss[1..];
    }
  }

  lemma DocumentRound(d: Document)
    ensures ReadDocument(DocumentValue(d)) == Some(d)
  {
    var fields := DocumentValue(d).fields;
    KeysDiffer();
    LookupAt(fields, 0, "rootGroups");
    LookupAt(fields, 1, "selectors");
    RootsRound(d.rootGroups);
    SelectorsRound(d.selectors);
  }

  // ---------- the round trip ----------

  predicate PlainSub(g: SubGroup) {
    && Unescaped(g.name) && Unescaped(g.softMemoryLimit)
    && (g.schedulingPolicy.Some? ==> Unescaped(g.schedulingPolicy.value))
  }

  predicate PlainRoot(g: RootGroup) {
    && Unescaped(g.name) && Unescaped(g.softMemoryLimit)
    && (g.subGroups.Some? ==> forall s | s in g.subGroups.value :: PlainSub(s))
  }

  predicate PlainSelector(s: Selector) {
    Unescaped(s.group) && (s.userGroup.Some? ==> Unescaped(s.userGroup.value))
  }

  /** Every text of the document is one that JSON writes as it is. */
  predicate PlainDocument(d: Document) {
    (forall g | g in d.rootGroups :: PlainRoot(g)) && (forall s | s in d.selectors :: PlainSelector(s))
  }

  lemma LimitKeysPlain()
    ensures Unescaped("name") && Unescaped("softMemoryLimit") && Unescaped("hardConcurrencyLimit")
  {
  }

  lemma OtherKeysPlain()
    ensures Unescaped("maxQueued") && Unescaped("schedulingPolicy") && Unescaped("subGroups")
  {
  }

  lemma DocumentKeysPlain()
    ensures Unescaped("userGroup") && Unescaped("group") && Unescaped("rootGroups") && Unescaped("selectors")
  {
  }

  lemma SubPlain(g: SubGroup)
    requires PlainSub(g)
    ensures PlainValue(SubValue(g))
  {
    LimitKeysPlain();
    OtherKeysPlain();
  }

  lemma RootPlain(g: RootGroup)
    requires PlainRoot(g)
    ensures PlainValue(RootValue(g))
  {
    LimitKeysPlain();
    OtherKeysPlain();
    if g.subGroups.Some? {
      forall i | 0 <= i < |g.subGroups.value| ensures PlainValue(SubValues(g.subGroups.value)[i]) {
        SubPlain(g.subGroups.value[i]);
      }
      assert PlainValue(List(SubValues(g.subGroups.value)));
    }
  }

  lemma SelectorPlain(s: Selector)
    requires PlainSelector(s)
    ensures PlainValue(SelectorValue(s))
  {
    DocumentKeysPlain();
  }

  lemma DocumentPlain(d: Document)
    requires PlainDocument(d)
    ensures PlainValue(DocumentValue(d))
  {
    DocumentKeysPlain();
    forall i | 0 <= i < |d.rootGroups| ensures PlainValue(RootValues(d.rootGroups)[i]) { RootPlain(d.rootGroups[i]); }
    forall i | 0 <= i < |d.selectors| ensures PlainValue(SelectorValues(d.selectors)[i]) {
      SelectorPlain(d.selectors[i]);
    }
    assert PlainValue(List(RootValues(d.rootGroups))) && PlainValue(List(SelectorValues(d.selectors)));
  }

  /** A reader of JSON that looks fields up by their keys gets the document back from its text. */
  lemma TextRoundTrip(d: Document)
    requires PlainDocument(d)
    ensures ReadText(TextOf(d)) == Some(d)
  {
    DocumentPlain(d);
    ValueRound(DocumentValue(d), "\n", "\n");
    DocumentRound(d);
    assert Skip("\n") == "" by { assert "\n"[1..] == ""; }
  }
}
