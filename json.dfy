/** JSON values as `serde_json::Value` holds them, with integers only
    (floating-point numbers are not modelled). */
module JsonValues {
  import opened Wrappers

  datatype Json =
    | JNull
    | JBool(b: bool)
    | JInt(n: int)
    | JStr(s: string)
    | JArr(items: seq<Json>)
    | JObj(fields: map<string, Json>)

  /** The members of an object, or none for any other value. */
  function Fields(j: Json): map<string, Json> {
    if j.JObj? then j.fields else map[]
  }

  /** `Value::get(key)` on an object; `None` for non-objects and missing keys. */
  function Get(j: Json, key: string): Option<Json> {
    if j.JObj? && key in j.fields then Some(j.fields[key]) else None
  }

  /** `Value::get(key).and_then(Value::as_str)`. */
  function GetStr(j: Json, key: string): Option<string> {
    match Get(j, key)
    case Some(JStr(s)) => Some(s)
    case _ => None
  }

  /** `Value::get(key).and_then(Value::as_array)`. */
  function GetArr(j: Json, key: string): Option<seq<Json>> {
    match Get(j, key)
    case Some(JArr(a)) => Some(a)
    case _ => None
  }

  /** A string vector as a JSON array. */
  function StrArray(xs: seq<string>): (r: Json)
    ensures r.JArr? && |r.items| == |xs|
    ensures forall i :: 0 <= i < |xs| ==> r.items[i] == JStr(xs[i])
  {
    JArr(seq(|xs|, i requires 0 <= i < |xs| => JStr(xs[i])))
  }
}

/** JSON Merge Patch, section 2 of RFC 7386 (republished as RFC 7396),
    as `json_patch::merge` implements it and `apply_merge_patch` in
    packages/getter-config/src/app_registry.rs uses it. */
module MergePatch {
  import opened JsonValues

  /** The member `key` of `target` when it is an object and has one;
      `null` otherwise (the value `Map::entry(..).or_insert(Null)` yields). */
  function Member(target: Json, key: string): Json {
    if target.JObj? && key in target.fields then target.fields[key] else JNull
  }

  /** MergePatch(Target, Patch): a non-object patch replaces the target; an
      object patch turns a non-object target into `{}`, deletes the members
      whose patch value is null and merges the others recursively. */
  function Merge(target: Json, patch: Json): (r: Json)
    ensures !patch.JObj? ==> r == patch
    ensures patch.JObj? ==> r.JObj?
    ensures patch.JObj? ==> forall k :: k in patch.fields && patch.fields[k].JNull? ==> k !in r.fields
    ensures patch.JObj? ==> forall k :: k in patch.fields && !patch.fields[k].JNull? ==>
              k in r.fields && r.fields[k] == Merge(Member(target, k), patch.fields[k])
    ensures patch.JObj? ==> forall k :: k !in patch.fields ==>
              (k in r.fields <==> k in Fields(target)) &&
              (k in Fields(target) ==> r.fields[k] == Fields(target)[k])
    decreases patch
  {
    if !patch.JObj? then patch
    else
      var t := Fields(target);
      var p := patch.fields;
      JObj(map k | k in t.Keys + p.Keys && !(k in p && p[k].JNull?) ::
             if k in p then Merge(Member(target, k), p[k]) else t[k])
  }

  /** Applying the same patch twice changes nothing the first application
      did not already do. */
  lemma {:induction false} MergeIdempotent(target: Json, patch: Json)
    ensures Merge(Merge(target, patch), patch) == Merge(target, patch)
    decreases patch
  {
    if patch.JObj? {
      var r := Merge(target, patch);
      var rr := Merge(r, patch);
      var p := patch.fields;
      forall k | k in p && !p[k].JNull?
        ensures rr.fields[k] == r.fields[k]
      {
        MergeIdempotent(Member(target, k), p[k]);
      }
      assert rr.fields.Keys == r.fields.Keys;
      assert rr.fields == r.fields;
    }
  }

  /** The empty object patch keeps an object target as it is. */
  lemma MergeEmptyPatch(target: Json)
    requires target.JObj?
    ensures Merge(target, JObj(map[])) == target
  {
    var r := Merge(target, JObj(map[]));
    assert r.fields.Keys == target.fields.Keys;
  }

  /** No object member anywhere in `j` is null: the documents a merge patch
      can produce exactly, since a null member in a patch means deletion. */
  predicate NullFree(j: Json)
    decreases j
  {
    match j
    case JObj(m) => forall k :: k in m ==> !m[k].JNull? && NullFree(m[k])
    case _ => true
  }

  /** A patch that describes the change from `source` to `dest`: members
      of `source` missing from `dest` are deleted with null, members of
      `dest` are described recursively, and anything that is not an
      object on both sides is replaced wholesale. */
  function Diff(source: Json, dest: Json): (patch: Json)
    ensures dest.JObj? <==> patch.JObj?
    ensures patch.JNull? <==> dest.JNull?
    decreases dest
  {
    if source.JObj? && dest.JObj? then
      JObj(map k | k in source.fields.Keys + dest.fields.Keys ::
             if k in dest.fields then Diff(Member(source, k), dest.fields[k]) else JNull)
    else dest
  }

  /** Merge inverts Diff: the patch computed from two documents rebuilds the
      second one from the first, provided the second holds no null member. */
  lemma {:induction false} MergeDiff(source: Json, dest: Json)
    requires NullFree(dest)
    ensures Merge(source, Diff(source, dest)) == dest
    decreases dest
  {
    if dest.JObj? {
      var patch := Diff(source, dest);
      var r := Merge(source, patch);
      var d := dest.fields;
      forall k | k in d
        ensures k in r.fields && r.fields[k] == d[k]
      {
        if source.JObj? {
          MergeDiff(Member(source, k), d[k]);
        } else {
          MergeDiff(JNull, d[k]);
          assert Member(source, k) == JNull;
        }
      }
      assert r.fields.Keys == d.Keys;
      assert r.fields == d;
    }
  }
}
