/** The status half of the access sync: build the owned conditions, compare with the live
    resource, and write one merge patch only when something differs. */
module StatusPatch {
  import opened Json
  import opened Text

  /** What one call wants the status to say: the plain fields besides
      `observedGeneration`, and the owned conditions in order. */
  datatype Wanted = Wanted(fields: map<string, Json>, conditions: seq<Report>)

  /** One condition before it is given a generation and a time; empty means absent. */
  datatype Report = Report(kind: string, ok: bool, reason: string, message: string)

  /** `_condition`. */
  function Condition(r: Report, generation: Json): Json {
    Obj(map["type" := Str(r.kind), "status" := Str(if r.ok then "True" else "False"),
            "observedGeneration" := generation]
        + (if r.reason != "" then map["reason" := Str(r.reason)] else map[])
        + (if r.message != "" then map["message" := Str(r.message)] else map[]))
  }

  datatype Signature = Signature(kind: Json, status: Json, reason: Json, message: Json, generation: Json)

  /** `_signature`. */
  function SignatureOf(condition: Json): Signature {
    Signature(Get(condition, "type"), Get(condition, "status"), Get(condition, "reason"),
              Get(condition, "message"), Get(condition, "observedGeneration"))
  }

  function Stamped(condition: Json, now: string): Json
    requires condition.Obj?
  {
    Obj(condition.fields["lastTransitionTime" := Str(now)])
  }

  predicate Owned(condition: Json, owned: set<string>) {
    Get(condition, "type").Str? && Get(condition, "type").text in owned
  }

  /** The conditions of one side: ours (`mine`) or everybody else's. */
  function Side(conditions: seq<Json>, owned: set<string>, mine: bool): seq<Json> {
    if conditions == [] then [] else
      (if Owned(conditions[0], owned) == mine then [conditions[0]] else [])
      + Side(conditions[1..], owned, mine)
  }

  function Signatures(conditions: seq<Json>): seq<Signature> {
    seq(|conditions|, i requires 0 <= i < |conditions| => SignatureOf(conditions[i]))
  }

  function Desired(w: Wanted, generation: Json): seq<Json> {
    seq(|w.conditions|, i requires 0 <= i < |w.conditions| => Condition(w.conditions[i], generation))
  }

  function Written(w: Wanted, generation: Json, now: string): seq<Json> {
    seq(|w.conditions|, i requires 0 <= i < |w.conditions| => Stamped(Condition(w.conditions[i], generation), now))
  }

  function Generation(resource: Json): Json {
    Get(Get(resource, "metadata"), "generation")
  }

  function LiveConditions(resource: Json): seq<Json> {
    Items(Get(resource, "status"), "conditions")
  }

  /** The test both status writers make before they write. */
  predicate Matches(resource: Json, w: Wanted, owned: set<string>) {
    && (forall k | k in w.fields :: Get(Get(resource, "status"), k) == w.fields[k])
    && Get(Get(resource, "status"), "observedGeneration") == Generation(resource)
    && Signatures(Side(LiveConditions(resource), owned, true)) == Signatures(Desired(w, Generation(resource)))
  }

  /** A condition that says what the report says: the verdict as the texts "True" and
      "False", and no reason or message where the report has none. */
  predicate Tells(condition: Json, r: Report, generation: Json) {
    && Get(condition, "type") == Str(r.kind)
    && (if r.ok then Get(condition, "status") == Str("True") else Get(condition, "status") == Str("False"))
    && (if r.reason == "" then Get(condition, "reason") == Null else Get(condition, "reason") == Str(r.reason))
    && (if r.message == "" then Get(condition, "message") == Null else Get(condition, "message") == Str(r.message))
    && Get(condition, "observedGeneration") == generation
  }

  /** The status of the object holds these fields and, among the conditions the job owns,
      one for each report and no other, all for the object's present generation. */
  predicate StatusTells(resource: Json, w: Wanted, owned: set<string>) {
    var status, generation := Get(resource, "status"), Get(Get(resource, "metadata"), "generation");
    var ours := Side(Items(status, "conditions"), owned, true);
    && (forall k | k in w.fields :: Get(status, k) == w.fields[k])
    && Get(status, "observedGeneration") == generation
    && |ours| == |w.conditions|
    && forall i | 0 <= i < |ours| :: Tells(ours[i], w.conditions[i], generation)
  }

  /** The patch body. */
  function Patch(resource: Json, w: Wanted, owned: set<string>, now: string): Json {
    var list := Written(w, Generation(resource), now) + Side(LiveConditions(resource), owned, false);
    Obj(map["status" := Obj(w.fields["observedGeneration" := Generation(resource)]["conditions" := Arr(list)])])
  }

  function Patched(resource: Json, w: Wanted, owned: set<string>, now: string): Json {
    MergePatch(resource, Patch(resource, w, owned, now))
  }

  /** What the callers' arguments look like: plain fields, owned conditions only. */
  predicate WellFormed(w: Wanted, owned: set<string>) {
    && (forall k | k in w.fields :: !w.fields[k].Obj? && k != "observedGeneration" && k != "conditions")
    && (forall i | 0 <= i < |w.conditions| :: w.conditions[i].kind in owned)
  }

  predicate IsResource(resource: Json) {
    resource.Obj? && !Generation(resource).Obj?
  }

  // ---------- lemmas ----------

  lemma ConditionTells(condition: Json, r: Report, generation: Json)
    ensures SignatureOf(condition) == SignatureOf(Condition(r, generation)) <==> Tells(condition, r, generation)
  {
    assert "True" != "False";
  }

  /** The writers' test is that the status says what is wanted. */
  lemma MatchesExactly(resource: Json, w: Wanted, owned: set<string>)
    ensures Matches(resource, w, owned) <==> StatusTells(resource, w, owned)
  {
    var ours, g := Side(LiveConditions(resource), owned, true), Generation(resource);
    var a, b := Signatures(ours), Signatures(Desired(w, g));
    if |ours| == |w.conditions| {
      forall i | 0 <= i < |ours| ensures a[i] == b[i] <==> Tells(ours[i], w.conditions[i], g) {
        ConditionTells(ours[i], w.conditions[i], g);
      }
      if forall i | 0 <= i < |ours| :: Tells(ours[i], w.conditions[i], g) {
        assert a == b;
      }
    }
  }

  predicate OfType(condition: Json, types: set<string>) {
    exists t | t in types :: Get(condition, "type") == Str(t)
  }

  /** The places of the conditions that are of these types, or are not, among the first `n`. */
  function Places(conditions: seq<Json>, n: nat, types: set<string>, mine: bool): (places: seq<nat>)
    requires n <= |conditions|
    ensures forall k :: k in places <==> 0 <= k < n && OfType(conditions[k], types) == mine
    ensures forall i, j :: 0 <= i < j < |places| ==> places[i] < places[j]
  {
    if n == 0 then [] else
      var before := Places(conditions, n - 1, types, mine);
      assert forall i :: 0 <= i < |before| ==> before[i] in before;
      before + (if OfType(conditions[n - 1], types) == mine then [n - 1] else [])
  }

  predicate Picked(side: seq<Json>, conditions: seq<Json>, places: seq<nat>) {
    |side| == |places| && forall i | 0 <= i < |places| :: places[i] < |conditions| && side[i] == conditions[places[i]]
  }

  lemma {:induction false} SideConcat(a: seq<Json>, b: seq<Json>, owned: set<string>, mine: bool)
    ensures Side(a + b, owned, mine) == Side(a, owned, mine) + Side(b, owned, mine)
  {
    if a == [] {
      assert a + b == b;
    } else {
      assert (a + b)[0] == a[0] && (a + b)[1..] == a[1..] + b;
      SideConcat(a[1..], b, owned, mine);
    }
  }

  lemma OneSide(condition: Json, owned: set<string>, mine: bool)
    ensures Side([condition], owned, mine) == if OfType(condition, owned) == mine then [condition] else []
  {
    assert Owned(condition, owned) <==> OfType(condition, owned);
  }

  lemma PickedMore(side: seq<Json>, conditions: seq<Json>, places: seq<nat>, k: nat)
    requires Picked(side, conditions, places) && k < |conditions|
    ensures Picked(side + [conditions[k]], conditions, places + [k])
  {
  }

  /** The two sides of a list are its conditions with and without an owned type, in order. */
  lemma {:induction false} SideExactly(conditions: seq<Json>, n: nat, owned: set<string>, mine: bool)
    requires n <= |conditions|
    ensures Picked(Side(conditions[..n], owned, mine), conditions, Places(conditions, n, owned, mine))
  {
    if n > 0 {
      var before, last := conditions[..n - 1], conditions[n - 1];
      assert conditions[..n] == before + [last];
      SideConcat(before, [last], owned, mine);
      OneSide(last, owned, mine);
      SideExactly(conditions, n - 1, owned, mine);
      PickedMore(Side(before, owned, mine), conditions, Places(conditions, n - 1, owned, mine), n - 1);
      assert Side(before, owned, mine) + [] == Side(before, owned, mine);
    }
  }

  lemma {:induction false} SideAll(a: seq<Json>, owned: set<string>, mine: bool)
    requires forall c :: c in a ==> Owned(c, owned) == mine
    ensures Side(a, owned, mine) == a && Side(a, owned, !mine) == []
  {
    if a != [] {
      SideAll(a[1..], owned, mine);
    }
  }

  lemma {:induction false} SideElements(a: seq<Json>, owned: set<string>, mine: bool)
    ensures forall c :: c in Side(a, owned, mine) ==> Owned(c, owned) == mine
  {
    if a != [] {
      SideElements(a[1..], owned, mine);
    }
  }

  lemma WrittenAreOwned(w: Wanted, owned: set<string>, generation: Json, now: string)
    requires WellFormed(w, owned)
    ensures forall c :: c in Written(w, generation, now) ==> Owned(c, owned)
  {
  }

  lemma WrittenSignatures(w: Wanted, generation: Json, now: string)
    ensures Signatures(Written(w, generation, now)) == Signatures(Desired(w, generation))
  {
    forall i | 0 <= i < |w.conditions|
      ensures SignatureOf(Written(w, generation, now)[i]) == SignatureOf(Desired(w, generation)[i])
    {
      var c := Condition(w.conditions[i], generation);
      forall k | k != "lastTransitionTime" ensures Get(Stamped(c, now), k) == Get(c, k) {}
    }
  }

  /** The two sides of the list a write leaves. */
  lemma PatchedSides(resource: Json, w: Wanted, owned: set<string>, now: string)
    requires WellFormed(w, owned)
    ensures var list := Written(w, Generation(resource), now) + Side(LiveConditions(resource), owned, false);
      Side(list, owned, true) == Written(w, Generation(resource), now)
      && Side(list, owned, false) == Side(LiveConditions(resource), owned, false)
  {
    var ours, theirs := Written(w, Generation(resource), now), Side(LiveConditions(resource), owned, false);
    WrittenAreOwned(w, owned, Generation(resource), now);
    SideAll(ours, owned, true);
    SideElements(LiveConditions(resource), owned, false);
    SideAll(theirs, owned, false);
    SideConcat(ours, theirs, owned, true);
    SideConcat(ours, theirs, owned, false);
  }

  lemma PatchedStatus(resource: Json, w: Wanted, owned: set<string>, now: string)
    requires IsResource(resource) && WellFormed(w, owned)
    ensures var after := Patched(resource, w, owned, now);
      && Generation(after) == Generation(resource)
      && LiveConditions(after) == Written(w, Generation(resource), now) + Side(LiveConditions(resource), owned, false)
      && Get(Get(after, "status"), "observedGeneration") == Generation(resource)
      && (forall k :: k in w.fields ==> Get(Get(after, "status"), k) == w.fields[k])
  {
    var patch := Patch(resource, w, owned, now);
    PatchKeeps(resource, patch, "metadata");
    PatchMerges(resource, patch, "status");
    var status := patch.fields["status"];
    PatchSets(Get(resource, "status"), status, "conditions");
    PatchSets(Get(resource, "status"), status, "observedGeneration");
    forall k | k in w.fields ensures Get(MergePatch(Get(resource, "status"), status), k) == w.fields[k] {
      PatchSets(Get(resource, "status"), status, k);
    }
  }

  /** A write keeps every condition the job does not own, unchanged and in order, every
      other status field, and everything outside the status. */
  lemma PatchKeepsForeign(resource: Json, w: Wanted, owned: set<string>, now: string)
    requires IsResource(resource) && WellFormed(w, owned)
    ensures var after := Patched(resource, w, owned, now);
      && Side(LiveConditions(after), owned, false) == Side(LiveConditions(resource), owned, false)
      && (forall k :: k != "status" ==> Get(after, k) == Get(resource, k))
      && (Get(resource, "status").Obj? ==>
            forall k :: k !in w.fields && k != "observedGeneration" && k != "conditions" ==>
              Get(Get(after, "status"), k) == Get(Get(resource, "status"), k))
  {
    PatchedStatus(resource, w, owned, now);
    PatchedSides(resource, w, owned, now);
    var patch := Patch(resource, w, owned, now);
    forall k | k != "status" ensures Get(Patched(resource, w, owned, now), k) == Get(resource, k) {
      PatchKeeps(resource, patch, k);
    }
    PatchMerges(resource, patch, "status");
    if Get(resource, "status").Obj? {
      forall k | k !in w.fields && k != "observedGeneration" && k != "conditions"
        ensures Get(Get(Patched(resource, w, owned, now), "status"), k) == Get(Get(resource, "status"), k)
      {
        PatchKeeps(Get(resource, "status"), patch.fields["status"], k);
      }
    }
  }

  /** What a write leaves in the list: first a condition for each report, with the time of
      the write, then the conditions of others. */
  lemma PatchedConditions(resource: Json, w: Wanted, owned: set<string>, now: string)
    requires IsResource(resource) && WellFormed(w, owned)
    ensures var list, generation := LiveConditions(Patched(resource, w, owned, now)),
                                    Get(Get(resource, "metadata"), "generation");
      && |w.conditions| <= |list|
      && (forall i :: 0 <= i < |w.conditions| ==>
            Tells(list[i], w.conditions[i], generation) && Get(list[i], "lastTransitionTime") == Str(now))
      && list[|w.conditions|..] == Side(LiveConditions(resource), owned, false)
  {
    PatchedStatus(resource, w, owned, now);
    var g := Generation(resource);
    WrittenSignatures(w, g, now);
    forall i | 0 <= i < |w.conditions|
      ensures Tells(Written(w, g, now)[i], w.conditions[i], g)
    {
      assert Signatures(Written(w, g, now))[i] == SignatureOf(Condition(w.conditions[i], g));
      ConditionTells(Written(w, g, now)[i], w.conditions[i], g);
    }
  }

  /** After a write the status says what was wanted, whatever was there before, and the
      writers' test finds nothing left to write. */
  lemma PatchThenMatches(resource: Json, w: Wanted, owned: set<string>, now: string)
    requires IsResource(resource) && WellFormed(w, owned)
    ensures StatusTells(Patched(resource, w, owned, now), w, owned)
    ensures Matches(Patched(resource, w, owned, now), w, owned)
    ensures IsResource(Patched(resource, w, owned, now))
  {
    PatchedStatus(resource, w, owned, now);
    PatchedSides(resource, w, owned, now);
    WrittenSignatures(w, Generation(resource), now);
    MatchesExactly(Patched(resource, w, owned, now), w, owned);
  }
}
