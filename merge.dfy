/** The merge routine that applies a partial update (a patch) to a stored JSON document. */
module MergePatch {
  import opened JsonValue

  /** The merge: when both sides are objects, each patch member either deletes (a `null`) or is merged
      recursively into the base's member (a missing member counting as `Null`); base members the patch
      does not name are kept. In every other case the patch replaces the base outright. */
  function Merge(base: Json, patch: Json): (r: Json)
    decreases patch
    // Replacement: a non-object on either side means the result is the patch, nested nulls included.
    ensures !(base.Obj? && patch.Obj?) ==> r == patch
    // Two objects merge into an object.
    ensures base.Obj? && patch.Obj? ==> r.Obj?
    // Its keys: those of either side, less the ones the patch sets to null.
    ensures base.Obj? && patch.Obj? ==>
      forall k :: k in r.fields <==>
        (k in base.fields || k in patch.fields) && !(k in patch.fields && patch.fields[k].Null?)
    // Base members the patch does not name keep their values.
    ensures base.Obj? && patch.Obj? ==>
      forall k :: k in base.fields && k !in patch.fields ==> r.fields[k] == base.fields[k]
    // A non-null member the base lacks is copied verbatim.
    ensures base.Obj? && patch.Obj? ==>
      forall k :: k in patch.fields && k !in base.fields && !patch.fields[k].Null? ==>
        r.fields[k] == patch.fields[k]
  {
    if base.Obj? && patch.Obj? then
      var a, b := base.fields, patch.fields;
      Obj(map k | k in a.Keys + b.Keys && !(k in b && b[k].Null?) ::
            if k in b then Merge(Member(a, k), b[k]) else a[k])
    else
      patch
  }

  /** The routine as the program runs it: the base's fields are updated one patch member at a time,
      removing on `null` and merging recursively into the member (or into `Null`) otherwise. The patch
      members are visited in an arbitrary order; the result does not depend on it. */
  method MergeJson(base: Json, patch: Json) returns (r: Json)
    ensures r == Merge(base, patch)
    decreases patch
  {
    if base.Obj? && patch.Obj? {
      var b := patch.fields;
      var fields := base.fields;
      var rest := b.Keys;
      while rest != {}
        invariant rest <= b.Keys
        invariant forall k :: k in fields <==>
          if k in b && k !in rest then !b[k].Null? else k in base.fields
        invariant forall k :: k in fields && !(k in b && k !in rest) ==> fields[k] == base.fields[k]
        invariant forall k :: k in fields && k in b && k !in rest ==>
          fields[k] == Merge(Member(base.fields, k), b[k])
        decreases rest
      {
        var k :| k in rest;
        var v := b[k];
        if v.Null? {
          fields := fields - {k};
        } else {
          var merged := MergeJson(Member(fields, k), v);
          fields := fields[k := merged];
        }
        rest := rest - {k};
      }
      r := Obj(fields);
      assert Obj(fields) == Merge(base, patch);
    } else {
      r := patch;
    }
  }

  /** Merging the empty patch into an object leaves it unchanged. */
  lemma MergeEmptyPatch(base: Json)
    requires base.Obj?
    ensures Merge(base, Obj(map[])) == base
  {
  }

  /** Patch `{k: null}` removes `k` and nothing else; if the base lacks `k`, the base is unchanged. */
  lemma MergeDeletesKey(fields: map<string, Json>, k: string)
    ensures Merge(Obj(fields), Obj(map[k := Null])) == Obj(fields - {k})
    ensures k !in fields ==> Merge(Obj(fields), Obj(map[k := Null])) == Obj(fields)
  {
  }

  /** Merging into an empty object keeps exactly the non-null members of the patch, each copied verbatim. */
  lemma MergeIntoEmpty(fields: map<string, Json>)
    ensures Merge(Obj(map[]), Obj(fields)) == Obj(map k | k in fields && !fields[k].Null? :: fields[k])
  {
  }

  /** Applying the same patch twice has the effect of applying it once, provided the patch holds no
      null member anywhere inside its objects. */
  lemma {:induction false} MergeIdempotent(base: Json, patch: Json)
    requires NoNullMembers(patch)
    ensures Merge(Merge(base, patch), patch) == Merge(base, patch)
    decreases patch
  {
    if patch.Obj? {
      var once := Merge(base, patch);
      var b := patch.fields;
      forall k | k in b
        ensures Merge(Merge(Member(if base.Obj? then base.fields else map[], k), b[k]), b[k])
             == Merge(Member(if base.Obj? then base.fields else map[], k), b[k])
      {
        MergeIdempotent(Member(if base.Obj? then base.fields else map[], k), b[k]);
      }
      if base.Obj? {
        assert Merge(once, patch).fields == once.fields;
      } else {
        forall k | k in b ensures Merge(b[k], b[k]) == b[k] {
          assert Merge(Null, b[k]) == b[k];
        }
        assert Merge(once, patch).fields == b;
      }
    }
  }

  /** Without that proviso the merge is not idempotent: a nested null copied in by the first application
      deletes its own key on the second. */
  lemma MergeNotIdempotent()
    ensures var patch := Obj(map["a" := Obj(map["b" := Null])]);
            Merge(Merge(Obj(map[]), patch), patch) != Merge(Obj(map[]), patch)
  {
    var patch := Obj(map["a" := Obj(map["b" := Null])]);
    var once := Merge(Obj(map[]), patch);
    assert once.fields["a"] == Obj(map["b" := Null]);
    var twice := Merge(once, patch);
    assert "b" !in twice.fields["a"].fields;
  }

  /** Merging is not commutative: two patches naming the same key leave the later one's value. */
  lemma MergeNotCommutative()
    ensures var base, p1, p2 := Obj(map[]), Obj(map["a" := Num(1)]), Obj(map["a" := Num(2)]);
            Merge(Merge(base, p1), p2) != Merge(Merge(base, p2), p1)
  {
    var base, p1, p2 := Obj(map[]), Obj(map["a" := Num(1)]), Obj(map["a" := Num(2)]);
    assert Merge(Merge(base, p1), p2).fields["a"] == Num(2);
    assert Merge(Merge(base, p2), p1).fields["a"] == Num(1);
  }

  /** Base `{"a": 1, "b": {"c": 2}}` with patch `{"b": {"c": null, "d": 3}}` gives `{"a": 1, "b": {"d": 3}}`. */
  lemma NestedMergeExample()
    ensures Merge(Obj(map["a" := Num(1), "b" := Obj(map["c" := Num(2)])]),
                  Obj(map["b" := Obj(map["c" := Null, "d" := Num(3)])]))
         == Obj(map["a" := Num(1), "b" := Obj(map["d" := Num(3)])])
  {
    var inner := Merge(Obj(map["c" := Num(2)]), Obj(map["c" := Null, "d" := Num(3)]));
    assert inner.fields == map["d" := Num(3)];
    var r := Merge(Obj(map["a" := Num(1), "b" := Obj(map["c" := Num(2)])]),
                   Obj(map["b" := Obj(map["c" := Null, "d" := Num(3)])]));
    assert r.fields == map["a" := Num(1), "b" := Obj(map["d" := Num(3)])];
  }

  /** Arrays are replaced wholesale: base `{"a": [1,2,3]}` with patch `{"a": [9]}` gives `{"a": [9]}`. */
  lemma ArrayReplacedExample()
    ensures Merge(Obj(map["a" := Arr([Num(1), Num(2), Num(3)])]), Obj(map["a" := Arr([Num(9)])]))
         == Obj(map["a" := Arr([Num(9)])])
  {
  }
}
