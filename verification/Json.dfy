/** JSON values and the merge patch of RFC 7396, as the Kubernetes API applies it. */
module Json {

  datatype Json =
    | Null
    | Bool(b: bool)
    | Num(n: int)
    | Str(text: string)
    | Arr(items: seq<Json>)
    | Obj(fields: map<string, Json>)

  /** Python's `value.get(key)`: a missing key and a null read alike. */
  function Get(j: Json, key: string): Json {
    if j.Obj? && key in j.fields then j.fields[key] else Null
  }

  /** `value.get(key) or []`. */
  function Items(j: Json, key: string): seq<Json> {
    if Get(j, key).Arr? then Get(j, key).items else []
  }

  /** MergePatch(target, patch), section 2 of RFC 7396. */
  function MergePatch(target: Json, patch: Json): Json
    decreases patch
  {
    if !patch.Obj? then patch else
      var base := if target.Obj? then target.fields else map[];
      Obj(map k | k in base.Keys + patch.fields.Keys && !(k in patch.fields && patch.fields[k].Null?)
          :: if k in patch.fields then MergePatch(if k in base then base[k] else Null, patch.fields[k]) else base[k])
  }

  /** A key the patch does not name keeps its value. */
  lemma PatchKeeps(target: Json, patch: Json, key: string)
    requires target.Obj? && patch.Obj? && key !in patch.fields
    ensures Get(MergePatch(target, patch), key) == Get(target, key)
  {
  }

  /** A key the patch gives a value that is not an object reads as that value afterwards;
      null removes it. */
  lemma PatchSets(target: Json, patch: Json, key: string)
    requires patch.Obj? && key in patch.fields && !patch.fields[key].Obj?
    ensures Get(MergePatch(target, patch), key) == patch.fields[key]
  {
  }

  /** A key the patch gives an object is merged below. */
  lemma PatchMerges(target: Json, patch: Json, key: string)
    requires target.Obj? && patch.Obj? && key in patch.fields && patch.fields[key].Obj?
    ensures Get(MergePatch(target, patch), key) == MergePatch(Get(target, key), patch.fields[key])
  {
  }
}
