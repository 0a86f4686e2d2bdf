/** JSON merge patch, section 2 of RFC 7396, as checkpoint.ts applies it to a working state. */
module MergePatch {
  import opened Options
  import opened JsonValues

  /** Property names that would set the prototype of the derived object instead of a field. */
  function PrototypeKeys(): set<Text> {
    {Units("__proto__"), Units("constructor"), Units("prototype")}
  }

  /** No object reached through objects of the patch carries a prototype key. */
  ghost predicate Admissible(patch: Json)
    decreases patch
  {
    patch.Obj? ==> forall k :: k in patch.props ==> k !in PrototypeKeys() && Admissible(patch.props[k])
  }

  function Props(j: Json): map<Text, Json> {
    if j.Obj? then j.props else map[]
  }

  /** The value stored under k; a missing property merges like any value that is not an object. */
  function At(props: map<Text, Json>, k: Text): Json {
    if k in props then props[k] else Null
  }

  /** The algorithm of RFC 7396: null deletes, objects merge, everything else replaces. */
  ghost function Merge(target: Json, patch: Json): Json
    decreases patch
  {
    if !patch.Obj? then patch
    else Obj(map k | k in Props(target).Keys + patch.props.Keys && !(k in patch.props && patch.props[k] == Null) ::
               if k in patch.props then Merge(At(Props(target), k), patch.props[k]) else Props(target)[k])
  }

  /** Applying the same patch again changes nothing. */
  lemma {:induction false} MergeIdempotent(target: Json, patch: Json)
    ensures Merge(Merge(target, patch), patch) == Merge(target, patch)
    decreases patch
  {
    if patch.Obj? {
      var once := Merge(target, patch);
      var twice := Merge(once, patch);
      forall k | k in patch.props && patch.props[k] != Null
        ensures k in twice.props && k in once.props && twice.props[k] == once.props[k]
      {
        MergeIdempotent(At(Props(target), k), patch.props[k]);
      }
      assert twice.props == once.props;
    }
  }

  /** applyMergePatch: the loop over the patch's entries, failing closed on a prototype key. */
  method ApplyMergePatch(target: Json, patch: Json) returns (r: Option<Json>)
    ensures r == if Admissible(patch) then Some(Merge(target, patch)) else None
    decreases patch
  {
    if !patch.Obj? {
      return Some(patch);
    }
    var out := Props(target);
    var todo := patch.props.Keys;
    while todo != {}
      invariant todo <= patch.props.Keys
      invariant forall k :: k in patch.props.Keys - todo ==> k !in PrototypeKeys() && Admissible(patch.props[k])
      invariant forall k :: k in out <==>
        if k in patch.props.Keys - todo then patch.props[k] != Null else k in Props(target)
      invariant forall k :: k in out ==>
        out[k] == if k in patch.props.Keys - todo then Merge(At(Props(target), k), patch.props[k]) else Props(target)[k]
      decreases todo
    {
      var k :| k in todo;
      if k in PrototypeKeys() {
        return None;
      }
      if patch.props[k] == Null {
        out := out - {k};
      } else {
        var merged := ApplyMergePatch(At(out, k), patch.props[k]);
        if merged.None? {
          return None;
        }
        out := out[k := merged.value];
      }
      todo := todo - {k};
    }
    assert out == Merge(target, patch).props;
    return Some(Obj(out));
  }

  // ----- What a patch does, name by name

  /** The names a patch leaves alone, removes, sets and merges into. */
  lemma MergeIs(target: Json, patch: Json, k: Text)
    ensures !patch.Obj? ==> Merge(target, patch) == patch
    ensures patch.Obj? ==> Merge(target, patch).Obj?
    ensures patch.Obj? && k !in patch.props ==>
      && (k in Merge(target, patch).props <==> target.Obj? && k in target.props)
      && (target.Obj? && k in target.props ==> Merge(target, patch).props[k] == target.props[k])
    ensures patch.Obj? && k in patch.props && patch.props[k] == Null ==> k !in Merge(target, patch).props
    ensures patch.Obj? && k in patch.props && patch.props[k] != Null ==> k in Merge(target, patch).props
    ensures patch.Obj? && k in patch.props && patch.props[k] != Null && !patch.props[k].Obj? ==>
      Merge(target, patch).props[k] == patch.props[k]
    ensures patch.Obj? && k in patch.props && patch.props[k].Obj? && target.Obj? && k in target.props ==>
      Merge(target, patch).props[k] == Merge(target.props[k], patch.props[k])
    ensures patch.Obj? && k in patch.props && patch.props[k].Obj? && !(target.Obj? && k in target.props) ==>
      Merge(target, patch).props[k] == Merge(Obj(map[]), patch.props[k])
  {
    if patch.Obj? && k in patch.props && patch.props[k].Obj? {
      MergeIntoNothing(patch.props[k]);
    }
  }

  /** What is not an object is merged into like an empty one. */
  lemma MergeIntoNothing(patch: Json)
    requires patch.Obj?
    ensures Merge(Null, patch) == Merge(Obj(map[]), patch)
  {
  }

  /** The patch that turns one object into another: names to drop are null, the others are set. */
  function Difference(target: Json, wanted: Json): Json
    requires target.Obj? && wanted.Obj?
  {
    Obj(map k | k in target.props.Keys + wanted.props.Keys :: if k in wanted.props then wanted.props[k] else Null)
  }

  /** Every object without objects or nulls among its properties can be reached by one patch. */
  lemma PatchReaches(target: Json, wanted: Json)
    requires target.Obj? && wanted.Obj?
    requires forall k :: k in wanted.props ==> wanted.props[k] != Null && !wanted.props[k].Obj?
    ensures Merge(target, Difference(target, wanted)) == wanted
  {
    var r := Merge(target, Difference(target, wanted));
    assert r.props.Keys == wanted.props.Keys;
    forall k | k in wanted.props ensures r.props[k] == wanted.props[k] {
      MergeIs(target, Difference(target, wanted), k);
    }
  }

  // ----- Prototype keys

  /** A name carried by some object reached through objects of the patch. */
  ghost predicate Carries(patch: Json, k: Text)
    decreases patch
  {
    patch.Obj? && (k in patch.props || exists c :: c in patch.props && Carries(patch.props[c], k))
  }

  /** A patch is refused exactly when it carries one of the three names anywhere. */
  lemma {:induction false} AdmissibleIff(patch: Json)
    ensures Admissible(patch) <==>
      && !Carries(patch, Units("__proto__")) && !Carries(patch, Units("constructor"))
      && !Carries(patch, Units("prototype"))
    decreases patch
  {
    hide Units;
    if patch.Obj? {
      forall c | c in patch.props
        ensures Admissible(patch.props[c]) <==>
          !Carries(patch.props[c], Units("__proto__")) && !Carries(patch.props[c], Units("constructor")) &&
          !Carries(patch.props[c], Units("prototype"))
      {
        AdmissibleIff(patch.props[c]);
      }
    }
  }
}
