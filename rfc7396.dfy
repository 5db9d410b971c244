/** The JSON Merge Patch algorithm of section 2 of RFC 7396, as an independent reference for the
    store's merge, and the exact extent to which the two agree. */
module Rfc7396 {
  import opened JsonValue
  import opened MergePatch

  /** RFC 7396 MergePatch(Target, Patch): an object patch first turns a non-object target into `{}`
      and then recurses into every non-null member, so nulls never survive into the result. */
  function MergePatchRfc(target: Json, patch: Json): (r: Json)
    decreases patch
    ensures !patch.Obj? ==> r == patch
    ensures patch.Obj? ==> r.Obj?
    ensures patch.Obj? ==> forall k :: k in patch.fields && patch.fields[k].Null? ==> k !in r.fields
    ensures !target.Obj? ==> NoNullMembers(r)
  {
    if patch.Obj? then
      var t := if target.Obj? then target.fields else map[];
      var b := patch.fields;
      Obj(map k | k in t.Keys + b.Keys && !(k in b && b[k].Null?) ::
            if k in b then MergePatchRfc(Member(t, k), b[k]) else t[k])
    else
      patch
  }

  /** A patch without null members inside its objects is applied by the store exactly as RFC 7396
      applies it, whatever the base. */
  lemma {:induction false} AgreesWithoutNullMembers(base: Json, patch: Json)
    requires NoNullMembers(patch)
    ensures Merge(base, patch) == MergePatchRfc(base, patch)
    decreases patch
  {
    if patch.Obj? {
      var b := patch.fields;
      var t := if base.Obj? then base.fields else map[];
      forall k | k in b ensures Merge(Member(t, k), b[k]) == MergePatchRfc(Member(t, k), b[k]) {
        AgreesWithoutNullMembers(Member(t, k), b[k]);
      }
      if base.Obj? {
        assert Merge(base, patch).fields == MergePatchRfc(base, patch).fields;
      } else {
        forall k | k in b ensures MergePatchRfc(Null, b[k]) == b[k] {
          assert Merge(Null, b[k]) == b[k];
        }
        assert MergePatchRfc(base, patch).fields == b;
      }
    }
  }

  /** Where the two part: an object patch with a null member, applied to a non-object base, is stored
      verbatim with that null by the store, while RFC 7396 drops the member. */
  lemma DiffersOnNonObjectBase(base: Json, patch: Json, k: string)
    requires !base.Obj? && patch.Obj?
    requires k in patch.fields && patch.fields[k].Null?
    ensures k in Merge(base, patch).fields
    ensures k !in MergePatchRfc(base, patch).fields
  {
  }

  /** The same divergence one level down: a new key whose patch value is an object with a null member. */
  lemma DiffersUnderNewKey()
    ensures var patch := Obj(map["a" := Obj(map["b" := Null])]);
            Merge(Obj(map[]), patch) == patch &&
            MergePatchRfc(Obj(map[]), patch) == Obj(map["a" := Obj(map[])])
  {
  }
}
