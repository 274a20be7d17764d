/** Documents, document operations and the patch algebra
    (crates/loams-collection/src/doc.rs). */
module Documents {
  import opened Prelude
  import opened Strings
  import opened PrimaryKeys

  datatype Value =
    | Null
    | Bool(b: bool)
    | Number(text: string)
    | String(s: string)
    | Array(items: seq<Value>)
    | Object(fields: map<string, Value>)

  /** A JSON object. Two of them are equal when they have the same members, whatever the order. */
  type Source = map<string, Value>

  /** A dense vector. Every stored value is finite. */
  type Vector = seq<real>

  datatype SparseVector = SparseVector(indices: seq<nat>, values: seq<real>)

  datatype Document = Document(
    pk: PrimaryKey,
    source: Source,
    vectors: map<string, Vector>,
    sparseVectors: map<string, SparseVector>)

  datatype PatchMode = MergeDeep | MergeTop | Replace

  datatype DocOp =
    | Upsert(doc: Document)
    | Delete(key: PrimaryKey)
    | Patch(
        pk: PrimaryKey,
        mode: PatchMode,
        source: Source,
        deleteKeys: seq<string>,
        vectors: map<string, Option<Vector>>,
        sparseVectors: map<string, Option<SparseVector>>,
        upsert: Option<Document>)
  {
    function Pk(): PrimaryKey {
      match this
      case Upsert(doc) => doc.pk
      case Delete(key) => key
      case Patch(pk, _, _, _, _, _, _) => pk
    }
  }

  // ---- Combining sources ----

  /** Where both values are objects they merge; otherwise the patch's value replaces. */
  function Merged(target: Source, patch: Source): (r: Source)
    ensures r.Keys == target.Keys + patch.Keys
    decreases Object(patch)
  {
    map k | k in target.Keys + patch.Keys ::
      if k !in patch then target[k]
      else if k in target && target[k].Object? && patch[k].Object?
      then Object(Merged(target[k].fields, patch[k].fields))
      else patch[k]
  }

  /** `merge_deep`: the members of `patch` one by one, in no particular order. */
  method MergeDeepInto(target: Source, patch: Source) returns (r: Source)
    ensures r == Merged(target, patch)
    decreases Object(patch)
  {
    r := target;
    var todo := patch.Keys;
    while todo != {}
      invariant todo <= patch.Keys
      invariant r == Merged(target, map k | k in patch && k !in todo :: patch[k])
      decreases todo
    {
      var key :| key in todo;
      if key in r && r[key].Object? && patch[key].Object? {
        var nested := MergeDeepInto(r[key].fields, patch[key].fields);
        r := r[key := Object(nested)];
      } else {
        r := r[key := patch[key]];
      }
      todo := todo - {key};
    }
    assert (map k | k in patch && k !in todo :: patch[k]) == patch;
  }

  // ---- Deleting paths ----

  /** `delete_path` on the segments of a path: walks objects only; a missing path is a no-op. */
  function Deleted(source: Source, path: seq<string>): (r: Source)
    decreases |path|
  {
    if path == [] then source
    else
      var key := path[0];
      if |path| == 1 then source - {key}
      else if key in source && source[key].Object?
      then source[key := Object(Deleted(source[key].fields, path[1..]))]
      else source
  }

  function DeletedAll(source: Source, paths: seq<seq<string>>): (r: Source)
  {
    if paths == [] then source
    else Deleted(DeletedAll(source, paths[..|paths| - 1]), paths[|paths| - 1])
  }

  /** The paths of `paths` below `key`. */
  function Below(paths: set<seq<string>>, key: string): set<seq<string>> {
    set p | p in paths && |p| >= 2 && p[0] == key :: p[1..]
  }

  /** What deleting a whole set of paths leaves: no member whose path is in the set, every other
      member with its own paths deleted below it. */
  function Pruned(source: Source, paths: set<seq<string>>): (r: Source)
    decreases Object(source)
  {
    map k | k in source && [k] !in paths ::
      if source[k].Object? then Object(Pruned(source[k].fields, Below(paths, k))) else source[k]
  }

  lemma {:induction false} PrunedNothing(source: Source, paths: set<seq<string>>)
    requires forall p :: p in paths ==> p == []
    ensures Pruned(source, paths) == source
    decreases Object(source)
  {
    forall k | k in source && source[k].Object?
      ensures Pruned(source[k].fields, Below(paths, k)) == source[k].fields
    {
      PrunedNothing(source[k].fields, Below(paths, k));
    }
  }

  /** Deleting one more path prunes by one more path. */
  lemma {:induction false} DeletedPrunes(source: Source, paths: set<seq<string>>, path: seq<string>)
    ensures Deleted(Pruned(source, paths), path) == Pruned(source, paths + {path})
    decreases |path|
  {
    var more := paths + {path};
    forall k | k in source && (path == [] || k != path[0])
      ensures Below(more, k) == Below(paths, k) && ([k] in more <==> [k] in paths)
    {
    }
    if |path| == 1 {
      assert path == [path[0]];
      assert Below(more, path[0]) == Below(paths, path[0]);
    } else if path != [] {
      var key := path[0];
      assert [key] in more <==> [key] in paths;
      assert Below(more, key) == Below(paths, key) + {path[1..]};
      if key in source && source[key].Object? && [key] !in paths {
        DeletedPrunes(source[key].fields, Below(paths, key), path[1..]);
      }
    }
  }

  /** Deleting paths one after another, in any order, prunes by their set. */
  lemma {:induction false} DeletedAllIsPruned(source: Source, paths: seq<seq<string>>)
    ensures DeletedAll(source, paths) == Pruned(source, set p | p in paths)
  {
    if paths == [] {
      PrunedNothing(source, set p | p in paths);
    } else {
      var before := paths[..|paths| - 1];
      DeletedAllIsPruned(source, before);
      DeletedPrunes(source, (set p | p in before), paths[|paths| - 1]);
      assert (set p | p in before) + {paths[|paths| - 1]} == set p | p in paths;
    }
  }

  // ---- Vectors ----

  /** `Some` sets the entry, `None` removes it. */
  function SetOrRemoved<T>(target: map<string, T>, changes: map<string, Option<T>>): (r: map<string, T>)
  {
    map k | k in target.Keys + changes.Keys && (k in changes ==> changes[k].Some?) ::
      if k in changes then changes[k].value else target[k]
  }

  method SetOrRemove<T>(target: map<string, T>, changes: map<string, Option<T>>)
    returns (r: map<string, T>)
    ensures r == SetOrRemoved(target, changes)
  {
    r := target;
    var todo := changes.Keys;
    while todo != {}
      invariant todo <= changes.Keys
      invariant r == SetOrRemoved(target, map k | k in changes && k !in todo :: changes[k])
      decreases todo
    {
      var name :| name in todo;
      match changes[name] {
        case Some(value) => r := r[name := value];
        case None => r := r - {name};
      }
      todo := todo - {name};
    }
    assert (map k | k in changes && k !in todo :: changes[k]) == changes;
  }

  // ---- Applying a patch ----

  function Paths(keys: seq<string>): (r: seq<seq<string>>)
    ensures |r| == |keys|
  {
    seq(|keys|, i requires 0 <= i < |keys| => Split(keys[i], '.'))
  }

  function Combined(mode: PatchMode, current: Source, patch: Source): Source {
    match mode
    case MergeDeep => Merged(current, patch)
    case MergeTop => current + patch
    case Replace => patch
  }

  /** The result of applying `patch` to `current`; `None` means the key stays absent. */
  function ApplyPatch(current: Option<Document>, patch: DocOp): (r: Option<Document>)
  {
    match patch
    case Upsert(doc) => Some(doc)
    case Delete(_) => None
    case Patch(pk, mode, source, deleteKeys, vectors, sparseVectors, upsert) =>
      match current
      case None => if upsert.Some? && upsert.value.pk == pk then upsert else None
      case Some(doc) =>
        Some(Document(
               doc.pk,
               DeletedAll(Combined(mode, doc.source, source), Paths(deleteKeys)),
               SetOrRemoved(doc.vectors, vectors),
               SetOrRemoved(doc.sparseVectors, sparseVectors)))
  }

  /** `apply_patch`, step by step. */
  method ApplyPatchSteps(current: Option<Document>, patch: DocOp) returns (r: Option<Document>)
    ensures r == ApplyPatch(current, patch)
  {
    if !patch.Patch? {
      return if patch.Upsert? then Some(patch.doc) else None;
    }
    if current.None? {
      return if patch.upsert.Some? && patch.upsert.value.pk == patch.pk then patch.upsert else None;
    }
    var doc := current.value;
    var source;
    match patch.mode {
      case MergeDeep => source := MergeDeepInto(doc.source, patch.source);
      case MergeTop => source := doc.source + patch.source;
      case Replace => source := patch.source;
    }
    ghost var combined := source;
    var paths := Paths(patch.deleteKeys);
    for i := 0 to |paths|
      invariant source == DeletedAll(combined, paths[..i])
    {
      assert paths[..i + 1][..i] == paths[..i];
      source := Deleted(source, paths[i]);
    }
    assert paths[..|paths|] == paths;
    var vectors := SetOrRemove(doc.vectors, patch.vectors);
    var sparseVectors := SetOrRemove(doc.sparseVectors, patch.sparseVectors);
    r := Some(Document(doc.pk, source, vectors, sparseVectors));
  }

  // ---- Idempotence ----

  lemma {:induction false} PrunedTwice(source: Source, paths: set<seq<string>>)
    ensures Pruned(Pruned(source, paths), paths) == Pruned(source, paths)
    decreases Object(source)
  {
    forall k | k in source && source[k].Object?
      ensures Pruned(Pruned(source[k].fields, Below(paths, k)), Below(paths, k))
           == Pruned(source[k].fields, Below(paths, k))
    {
      PrunedTwice(source[k].fields, Below(paths, k));
    }
  }

  lemma {:induction false} MergedTwice(target: Source, patch: Source)
    ensures Merged(Merged(target, patch), patch) == Merged(target, patch)
    decreases Object(patch)
  {
    forall k | k in target && k in patch && target[k].Object? && patch[k].Object?
      ensures Merged(Merged(target[k].fields, patch[k].fields), patch[k].fields)
           == Merged(target[k].fields, patch[k].fields)
    {
      MergedTwice(target[k].fields, patch[k].fields);
    }
    forall k | k in patch && patch[k].Object? && !(k in target && target[k].Object?)
      ensures Merged(patch[k].fields, patch[k].fields) == patch[k].fields
    {
      MergedWithItself(patch[k].fields);
    }
  }

  lemma {:induction false} MergedWithItself(patch: Source)
    ensures Merged(patch, patch) == patch
    decreases Object(patch)
  {
    forall k | k in patch && patch[k].Object?
      ensures Merged(patch[k].fields, patch[k].fields) == patch[k].fields
    {
      MergedWithItself(patch[k].fields);
    }
  }

  /** Merging back what a prune removed, and pruning again, restores the pruned source. */
  lemma {:induction false} PrunedMerge(source: Source, patch: Source, paths: set<seq<string>>)
    requires Merged(source, patch) == source
    ensures Pruned(Merged(Pruned(source, paths), patch), paths) == Pruned(source, paths)
    decreases Object(source)
  {
    var once := Pruned(source, paths);
    var twice := Pruned(Merged(once, patch), paths);
    PrunedTwice(source, paths);
    forall k | k in source
      ensures k in twice <==> k in once
      ensures k in once ==> twice[k] == once[k]
    {
      var below := Below(paths, k);
      if k in patch && [k] !in paths && source[k].Object? {
        assert Merged(source, patch)[k] == source[k];
        if patch[k].Object? {
          PrunedMerge(source[k].fields, patch[k].fields, below);
        }
      } else if k in patch {
        assert Merged(source, patch)[k] == source[k];
      } else {
        assert k in once ==> Pruned(once, paths)[k] == twice[k];
      }
    }
    assert twice.Keys == once.Keys;
  }

  lemma PrunedTop(source: Source, patch: Source, paths: set<seq<string>>)
    requires source + patch == source
    ensures Pruned(Pruned(source, paths) + patch, paths) == Pruned(source, paths)
  {
    var once := Pruned(source, paths);
    var twice := Pruned(once + patch, paths);
    PrunedTwice(source, paths);
    forall k | k in source
      ensures k in twice <==> k in once
      ensures k in once ==> twice[k] == once[k]
    {
      if k in patch {
        assert (source + patch)[k] == patch[k];
      } else {
        assert k in once ==> Pruned(once, paths)[k] == twice[k];
      }
    }
    assert twice.Keys == once.Keys;
  }

  lemma SourceIdempotent(mode: PatchMode, current: Source, patch: Source, paths: seq<seq<string>>)
    ensures var after := DeletedAll(Combined(mode, current, patch), paths);
            DeletedAll(Combined(mode, after, patch), paths) == after
  {
    var combined := Combined(mode, current, patch);
    var removed := set p | p in paths;
    DeletedAllIsPruned(combined, paths);
    var after := DeletedAll(combined, paths);
    DeletedAllIsPruned(Combined(mode, after, patch), paths);
    match mode {
      case MergeDeep =>
        MergedTwice(current, patch);
        PrunedMerge(combined, patch, removed);
      case MergeTop =>
        assert combined + patch == combined;
        PrunedTop(combined, patch, removed);
      case Replace =>
    }
  }

  /** Applying a patch to its own result changes nothing: every mode, every nested source, every
      list of deleted paths and every change of vectors. */
  lemma PatchIdempotent(current: Document, patch: DocOp)
    requires patch.Patch?
    ensures var after := ApplyPatch(Some(current), patch);
            after.Some? && ApplyPatch(after, patch) == after
  {
    SourceIdempotent(patch.mode, current.source, patch.source, Paths(patch.deleteKeys));
    var vectors := SetOrRemoved(current.vectors, patch.vectors);
    assert SetOrRemoved(vectors, patch.vectors) == vectors;
    var sparse := SetOrRemoved(current.sparseVectors, patch.sparseVectors);
    assert SetOrRemoved(sparse, patch.sparseVectors) == sparse;
  }

  /** No path of `paths` leads to a member of `source`. */
  ghost predicate Lacks(source: Source, paths: set<seq<string>>)
    decreases Object(source)
  {
    forall k :: k in source ==>
      [k] !in paths && (source[k].Object? ==> Lacks(source[k].fields, Below(paths, k)))
  }

  /** `source` has every member of `patch` that no path of `paths` deletes, objects member by member. */
  ghost predicate Carries(source: Source, patch: Source, paths: set<seq<string>>)
    decreases Object(patch)
  {
    forall k :: k in patch && [k] !in paths ==>
      && k in source && source[k].Object? == patch[k].Object?
      && (if patch[k].Object? then Carries(source[k].fields, patch[k].fields, Below(paths, k))
          else source[k] == patch[k])
  }

  /** `target` has every value that `changes` sets and none that it removes. */
  ghost predicate Carried<T>(target: map<string, T>, changes: map<string, Option<T>>) {
    forall k :: k in changes ==>
      if changes[k].Some? then k in target && target[k] == changes[k].value else k !in target
  }

  /** `source` is already as a patch of `patch` and `paths` would leave it. */
  ghost predicate Settled(mode: PatchMode, source: Source, patch: Source, paths: set<seq<string>>) {
    && Lacks(source, paths)
    && match mode
       case MergeDeep => Carries(source, patch, paths)
       case MergeTop => forall k :: k in Pruned(patch, paths) ==> k in source && source[k] == Pruned(patch, paths)[k]
       case Replace => source == Pruned(patch, paths)
  }

  lemma {:induction false} PrunedLacks(source: Source, paths: set<seq<string>>)
    ensures Pruned(source, paths) == source <==> Lacks(source, paths)
    decreases Object(source)
  {
    forall k | k in source && source[k].Object?
      ensures Pruned(source[k].fields, Below(paths, k)) == source[k].fields
         <==> Lacks(source[k].fields, Below(paths, k))
    {
      PrunedLacks(source[k].fields, Below(paths, k));
    }
    if Pruned(source, paths) == source {
      forall k | k in source
        ensures [k] !in paths && (source[k].Object? ==> Lacks(source[k].fields, Below(paths, k)))
      {
        assert k in Pruned(source, paths) && Pruned(source, paths)[k] == source[k];
      }
    }
  }

  lemma {:induction false} DeepSettled(source: Source, patch: Source, paths: set<seq<string>>)
    requires Lacks(source, paths)
    ensures Pruned(Merged(source, patch), paths) == source <==> Carries(source, patch, paths)
    decreases Object(patch)
  {
    var merged := Merged(source, patch);
    var r := Pruned(merged, paths);
    forall k | k in source && (k !in patch || !(source[k].Object? && patch[k].Object?))
      ensures k in r && (k !in patch ==> r[k] == source[k])
    {
      if source[k].Object? { PrunedLacks(source[k].fields, Below(paths, k)); }
    }
    forall k | k in source && k in patch && source[k].Object? && patch[k].Object?
      ensures k in r
      ensures r[k] == source[k] <==> Carries(source[k].fields, patch[k].fields, Below(paths, k))
    {
      DeepSettled(source[k].fields, patch[k].fields, Below(paths, k));
    }
    if r == source {
      forall k | k in patch && [k] !in paths
        ensures k in source && source[k].Object? == patch[k].Object?
        ensures if patch[k].Object? then Carries(source[k].fields, patch[k].fields, Below(paths, k))
                else source[k] == patch[k]
      {
        assert k in r && r[k] == source[k];
      }
    }
  }

  lemma SourceSettled(mode: PatchMode, source: Source, patch: Source, paths: seq<seq<string>>)
    ensures DeletedAll(Combined(mode, source, patch), paths) == source
       <==> Settled(mode, source, patch, set p | p in paths)
  {
    var all := set p | p in paths;
    var combined := Combined(mode, source, patch);
    DeletedAllIsPruned(combined, paths);
    PrunedLacks(source, all);
    PrunedTwice(combined, all);
    match mode
    case MergeDeep => if Lacks(source, all) { DeepSettled(source, patch, all); }
    case MergeTop =>
      var r := Pruned(combined, all);
      forall k | k in patch && [k] !in all
        ensures k in r && k in Pruned(patch, all) && r[k] == Pruned(patch, all)[k]
      {
      }
      if Lacks(source, all) {
        forall k | k in source && k !in patch
          ensures k in r && r[k] == source[k]
        {
          assert Pruned(source, all)[k] == source[k];
        }
      }
    case Replace =>
  }

  /** A patch leaves a document as it is exactly when the document already has what the patch sets
      and has nothing that it removes. */
  lemma PatchIsNoWriteIff(current: Document, patch: DocOp)
    requires patch.Patch?
    ensures ApplyPatch(Some(current), patch) == Some(current)
       <==> && Settled(patch.mode, current.source, patch.source, set p | p in Paths(patch.deleteKeys))
            && Carried(current.vectors, patch.vectors) && Carried(current.sparseVectors, patch.sparseVectors)
  {
    SourceSettled(patch.mode, current.source, patch.source, Paths(patch.deleteKeys));
    CarriedIff(current.vectors, patch.vectors);
    CarriedIff(current.sparseVectors, patch.sparseVectors);
  }

  lemma CarriedIff<T>(target: map<string, T>, changes: map<string, Option<T>>)
    ensures SetOrRemoved(target, changes) == target <==> Carried(target, changes)
  {
    var r := SetOrRemoved(target, changes);
    if r == target {
      forall k | k in changes
        ensures if changes[k].Some? then k in target && target[k] == changes[k].value else k !in target
      {
        assert changes[k].Some? ==> k in r && r[k] == changes[k].value;
      }
    }
  }

  /** On a missing key a patch is idempotent exactly when it inserts nothing, or inserts a document
      that it would leave as it is. */
  lemma MissingKeyIdempotentIff(patch: DocOp)
    requires patch.Patch?
    ensures ApplyPatch(ApplyPatch(None, patch), patch) == ApplyPatch(None, patch)
       <==> || patch.upsert.None? || patch.upsert.value.pk != patch.pk
            || (var inserted := patch.upsert.value;
                && Settled(patch.mode, inserted.source, patch.source, set p | p in Paths(patch.deleteKeys))
                && Carried(inserted.vectors, patch.vectors)
                && Carried(inserted.sparseVectors, patch.sparseVectors))
  {
    if patch.upsert.Some? && patch.upsert.value.pk == patch.pk {
      PatchIsNoWriteIff(patch.upsert.value, patch);
    }
  }

  /** On a missing key the same does not hold: the first delivery inserts the `upsert` document as
      it is, the second patches it. */
  lemma PatchOfMissingKeyNotIdempotent(pk: PrimaryKey)
    ensures exists patch: DocOp ::
              && patch.Patch? && patch.pk == pk
              && ApplyPatch(ApplyPatch(None, patch), patch) != ApplyPatch(None, patch)
  {
    var inserted := Document(pk, map["a" := Null], map[], map[]);
    var patch := Patch(pk, Replace, map[], [], map[], map[], Some(inserted));
    var once := ApplyPatch(None, patch);
    assert once == Some(inserted);
    var twice := ApplyPatch(once, patch);
    assert DeletedAll(map[], Paths([])) == map[];
    assert "a" in once.value.source && "a" !in twice.value.source;
  }
}
