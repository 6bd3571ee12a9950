/** backend/open_webui/models/users.py: `_deep_merge_dict`. */
module DeepMerge {
  import opened Wrappers
  import opened Json

  type Path = seq<string>

  /** `replace` holds full paths; `path` is where the two dictionaries sit. */
  function Merge(current: Object, patch: Object, replace: set<Path>, path: Path): (merged: Object)
    ensures merged.Keys == current.Keys + patch.Keys
    decreases Obj(patch)
  {
    map k | k in current.Keys + patch.Keys ::
      if k !in patch then current[k]
      else if path + [k] !in replace && patch[k].Obj? && k in current && current[k].Obj? then
        Obj(Merge(current[k].fields, patch[k].fields, replace, path + [k]))
      else patch[k]
  }

  /** The loop of the source: a copy of `current`, overwritten key by key. */
  method DeepMergeDict(current: Object, patch: Object, replace: set<Path>, path: Path) returns (merged: Object)
    ensures merged == Merge(current, patch, replace, path)
    decreases Obj(patch)
  {
    merged := current;
    var todo := patch.Keys;
    while todo != {}
      invariant todo <= patch.Keys
      invariant merged.Keys == current.Keys + (patch.Keys - todo)
      invariant forall k :: k in merged ==>
        merged[k] == if k in patch && k !in todo then Merge(current, patch, replace, path)[k] else current[k]
      decreases todo
    {
      var k :| k in todo;
      var value := patch[k];
      var next := path + [k];
      if next in replace {
        merged := merged[k := value];
      } else if value.Obj? && k in merged && merged[k].Obj? {
        var inner := DeepMergeDict(merged[k].fields, value.fields, replace, next);
        merged := merged[k := Obj(inner)];
      } else {
        merged := merged[k := value];
      }
      todo := todo - {k};
    }
  }

  // ---------- idempotence ----------

  /** A dictionary merged into itself is itself. */
  lemma {:induction false} SelfMerge(o: Object, replace: set<Path>, path: Path)
    ensures Merge(o, o, replace, path) == o
    decreases Obj(o)
  {
    forall k | k in o
      ensures Merge(o, o, replace, path)[k] == o[k]
    {
      if o[k].Obj? {
        SelfMerge(o[k].fields, replace, path + [k]);
      }
    }
  }

  /** Applying a patch twice is applying it once. */
  lemma {:induction false} MergeIsIdempotent(current: Object, patch: Object, replace: set<Path>, path: Path)
    ensures Merge(Merge(current, patch, replace, path), patch, replace, path) == Merge(current, patch, replace, path)
    decreases Obj(patch)
  {
    var once := Merge(current, patch, replace, path);
    forall k | k in once
      ensures Merge(once, patch, replace, path)[k] == once[k]
    {
      if k in patch && patch[k].Obj? {
        if path + [k] !in replace && k in current && current[k].Obj? {
          MergeIsIdempotent(current[k].fields, patch[k].fields, replace, path + [k]);
        } else {
          SelfMerge(patch[k].fields, replace, path + [k]);
        }
      }
    }
  }

  // ---------- what a patch leaves alone and what it brings ----------

  /** Walking `q`, the patch ends before it reaches a leaf, a replaced path or the end of `q`. */
  predicate Untouched(patch: Object, q: Path, replace: set<Path>, path: Path)
    decreases |q|
  {
    q != [] &&
    (q[0] !in patch
     || (&& |q| > 1 && patch[q[0]].Obj? && path + [q[0]] !in replace
         && Untouched(patch[q[0]].fields, q[1..], replace, path + [q[0]])))
  }

  /** A path the patch does not touch keeps its value, or its absence. */
  lemma {:induction false} UntouchedIsKept(current: Object, patch: Object, q: Path, replace: set<Path>, path: Path)
    requires Untouched(patch, q, replace, path)
    ensures Get(Merge(current, patch, replace, path), q) == Get(current, q)
    decreases |q|
  {
    if q[0] in patch {
      var inner := patch[q[0]].fields;
      if q[0] in current && current[q[0]].Obj? {
        UntouchedIsKept(current[q[0]].fields, inner, q[1..], replace, path + [q[0]]);
      } else {
        UntouchedIsAbsent(inner, q[1..], replace, path + [q[0]]);
      }
    }
  }

  lemma {:induction false} UntouchedIsAbsent(patch: Object, q: Path, replace: set<Path>, path: Path)
    requires Untouched(patch, q, replace, path)
    ensures Get(patch, q) == None
    decreases |q|
  {
    if q[0] in patch {
      UntouchedIsAbsent(patch[q[0]].fields, q[1..], replace, path + [q[0]]);
    }
  }

  /** Every leaf of the patch is in the result; so is every value at a replaced path, whole. */
  lemma {:induction false} PatchIsContained(current: Object, patch: Object, q: Path, replace: set<Path>, path: Path)
    requires q != [] && Get(patch, q).Some?
    requires !Get(patch, q).value.Obj? || path + q in replace
    ensures Get(Merge(current, patch, replace, path), q) == Get(patch, q)
    decreases |q|
  {
    var k := q[0];
    if |q| > 1 {
      if path + [k] !in replace && k in current && current[k].Obj? {
        assert path + [k] + q[1..] == path + q;
        PatchIsContained(current[k].fields, patch[k].fields, q[1..], replace, path + [k]);
      }
    } else {
      assert path + q == path + [k];
    }
  }

  /** Where the patch goes on below a path that is not replaced, the branches are merged key by key; a branch
    * against anything else takes its place.
    */
  lemma {:induction false} BranchIsMerged(current: Object, patch: Object, q: Path, replace: set<Path>, path: Path)
    requires q != [] && Get(patch, q).Some? && Get(patch, q).value.Obj?
    requires forall i :: 0 < i <= |q| ==> path + q[..i] !in replace
    ensures
      var merged, mine := Get(Merge(current, patch, replace, path), q), Get(current, q);
      if mine.Some? && mine.value.Obj?
      then merged.Some? && merged.value.Obj?
           && merged.value.fields.Keys == mine.value.fields.Keys + Get(patch, q).value.fields.Keys
      else merged == Get(patch, q)
    decreases |q|
  {
    var k := q[0];
    assert path + q[..1] == path + [k];
    if |q| > 1 && k in current && current[k].Obj? {
      forall i | 0 < i <= |q[1..]|
        ensures path + [k] + q[1..][..i] !in replace
      {
        assert path + [k] + q[1..][..i] == path + q[..i + 1];
      }
      BranchIsMerged(current[k].fields, patch[k].fields, q[1..], replace, path + [k]);
    }
  }

  // ---------- commutation ----------

  /** Wherever both patches write, they write the same value or both go deeper. */
  ghost predicate Compatible(a: Object, b: Object)
    decreases Obj(a)
  {
    forall k :: k in a && k in b ==>
      a[k] == b[k] || (a[k].Obj? && b[k].Obj? && Compatible(a[k].fields, b[k].fields))
  }

  function Plain(current: Object, patch: Object, path: Path): Object {
    Merge(current, patch, {}, path)
  }

  lemma MergeIntoEmpty(patch: Object, path: Path)
    ensures Plain(map[], patch, path) == patch
  {
  }

  lemma {:induction false} CompatibleCommute(current: Object, a: Object, b: Object, path: Path)
    requires Compatible(a, b)
    ensures Plain(Plain(current, a, path), b, path) == Plain(Plain(current, b, path), a, path)
    decreases Obj(a)
  {
    var ab, ba := Plain(Plain(current, a, path), b, path), Plain(Plain(current, b, path), a, path);
    forall k | k in ab
      ensures ab[k] == ba[k]
    {
      if k in a && k in b && a[k].Obj? && b[k].Obj? {
        var next := path + [k];
        if a[k] == b[k] {
          assert Compatible(a[k].fields, b[k].fields) by { SelfCompatible(a[k].fields); }
        }
        if k in current && current[k].Obj? {
          CompatibleCommute(current[k].fields, a[k].fields, b[k].fields, next);
        } else {
          CompatibleCommute(map[], a[k].fields, b[k].fields, next);
          MergeIntoEmpty(a[k].fields, next);
          MergeIntoEmpty(b[k].fields, next);
        }
      }
    }
  }

  lemma {:induction false} SelfCompatible(a: Object)
    ensures Compatible(a, a)
  {
  }

  lemma {:induction false} CommuteOnEmpty(a: Object, b: Object, path: Path)
    requires Plain(a, b, path) == Plain(b, a, path)
    ensures Compatible(a, b)
    decreases Obj(a)
  {
    forall k | k in a && k in b
      ensures a[k] == b[k] || (a[k].Obj? && b[k].Obj? && Compatible(a[k].fields, b[k].fields))
    {
      assert Plain(a, b, path)[k] == Plain(b, a, path)[k];
      if a[k].Obj? && b[k].Obj? {
        CommuteOnEmpty(a[k].fields, b[k].fields, path + [k]);
      }
    }
  }

  /** Two patches give the same settings in either order, whatever they are applied to, if and
    * only if they are compatible.
    */
  lemma PatchesCommuteIff(a: Object, b: Object)
    ensures Compatible(a, b) <==>
            forall current :: Plain(Plain(current, a, []), b, []) == Plain(Plain(current, b, []), a, [])
  {
    if Compatible(a, b) {
      forall current
        ensures Plain(Plain(current, a, []), b, []) == Plain(Plain(current, b, []), a, [])
      {
        CompatibleCommute(current, a, b, []);
      }
    }
    if forall current :: Plain(Plain(current, a, []), b, []) == Plain(Plain(current, b, []), a, []) {
      MergeIntoEmpty(a, []);
      MergeIntoEmpty(b, []);
      assert Plain(Plain(map[], a, []), b, []) == Plain(Plain(map[], b, []), a, []);
      CommuteOnEmpty(a, b, []);
    }
  }

  /** Sharing no leaf path is not enough: {a: 1} and {a: {b: 2}} overwrite each other. */
  lemma LeafAgainstBranch()
    ensures
      var leaf, branch := map["a" := Int(1)], map["a" := Obj(map["b" := Int(2)])];
      && Get(branch, ["a"]) != Some(Int(1)) && Get(leaf, ["a", "b"]) == None
      && Plain(Plain(map[], leaf, []), branch, []) == branch
      && Plain(Plain(map[], branch, []), leaf, []) == leaf
  {
    var leaf, branch := map["a" := Int(1)], map["a" := Obj(map["b" := Int(2)])];
    MergeIntoEmpty(leaf, []);
    MergeIntoEmpty(branch, []);
  }
}
