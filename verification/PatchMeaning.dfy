/** What a patch does to a document, said of every path of the source and of every vector name
    (crates/loams-collection/src/doc.rs), with no mention of how the source combines and prunes. */
module PatchMeaning {
  import opened Prelude
  import opened Strings
  import opened Documents

  /** What a source has at a path: nothing, an object, or any other value. */
  datatype Spot = Nothing | Branch | Leaf(value: Value)

  function At(source: Source, path: seq<string>): Spot
    decreases |path|
  {
    if path == [] then Branch
    else if path[0] !in source then Nothing
    else if source[path[0]].Object? then At(source[path[0]].fields, path[1..])
    else if |path| == 1 then Leaf(source[path[0]])
    else Nothing
  }

  /** The path goes through a value of `source` that is not an object. */
  ghost predicate Blocked(source: Source, path: seq<string>) {
    exists n :: 1 <= n < |path| && At(source, path[..n]).Leaf?
  }

  /** Some deleted key, split at its dots, leads to `path` or to something above it. */
  ghost predicate Removed(keys: seq<string>, path: seq<string>) {
    exists i, n :: 0 <= i < |keys| && 1 <= n <= |path| && Split(keys[i], '.') == path[..n]
  }

  /** What the combined source has at `path`, mode by mode. */
  ghost function CombinedAt(mode: PatchMode, current: Source, patch: Source, path: seq<string>): Spot {
    match mode
    case Replace => At(patch, path)
    case MergeTop => if path != [] && path[0] in patch then At(patch, path) else At(current, path)
    case MergeDeep =>
      if !At(patch, path).Nothing? then At(patch, path)
      else if Blocked(patch, path) then Nothing
      else At(current, path)
  }

  /** Every name holds the value set for it, is absent when removed, and is otherwise as before. */
  ghost predicate Changed<T>(before: map<string, T>, changes: map<string, Option<T>>, after: map<string, T>) {
    forall name: string ::
      if name !in changes then (name in after <==> name in before) && (name in before ==> after[name] == before[name])
      else if changes[name].None? then name !in after
      else name in after && after[name] == changes[name].value
  }

  ghost predicate Patched(before: Document, patch: DocOp, after: Document)
    requires patch.Patch?
  {
    && after.pk == before.pk
    && Changed(before.vectors, patch.vectors, after.vectors)
    && Changed(before.sparseVectors, patch.sparseVectors, after.sparseVectors)
    && forall path :: At(after.source, path) ==
         if Removed(patch.deleteKeys, path) then Nothing
         else CombinedAt(patch.mode, before.source, patch.source, path)
  }

  lemma BlockedBelow(source: Source, path: seq<string>)
    requires path != [] && path[0] in source && source[path[0]].Object?
    ensures Blocked(source, path) <==> Blocked(source[path[0]].fields, path[1..])
  {
    var fields, rest := source[path[0]].fields, path[1..];
    forall n | 1 <= n <= |path|
      ensures At(source, path[..n]) == At(fields, rest[..n - 1])
    {
      assert path[..n][1..] == rest[..n - 1];
    }
    if Blocked(source, path) {
      var n :| 1 <= n < |path| && At(source, path[..n]).Leaf?;
      assert At(fields, rest[..n - 1]).Leaf?;
    }
    if Blocked(fields, rest) {
      var n :| 1 <= n < |rest| && At(fields, rest[..n]).Leaf?;
      assert At(source, path[..n + 1]).Leaf?;
    }
  }

  lemma {:induction false} MergedAt(current: Source, patch: Source, path: seq<string>)
    ensures At(Merged(current, patch), path) == CombinedAt(MergeDeep, current, patch, path)
    decreases |path|
  {
    if path != [] {
      var k, rest := path[0], path[1..];
      if k !in patch {
        assert forall n :: 1 <= n < |path| ==> path[..n][0] == k;
      } else if patch[k].Object? {
        BlockedBelow(patch, path);
        if k in current && current[k].Object? {
          MergedAt(current[k].fields, patch[k].fields, rest);
        }
      } else {
        assert |path| > 1 ==> At(patch, path[..1]).Leaf?;
      }
    }
  }

  ghost predicate Cut(paths: set<seq<string>>, path: seq<string>) {
    exists n :: 1 <= n <= |path| && path[..n] in paths
  }

  lemma CutBelow(paths: set<seq<string>>, path: seq<string>)
    requires path != []
    ensures Cut(paths, path) <==> [path[0]] in paths || Cut(Below(paths, path[0]), path[1..])
  {
    var below, rest := Below(paths, path[0]), path[1..];
    if Cut(paths, path) {
      var n :| 1 <= n <= |path| && path[..n] in paths;
      assert path[..1] == [path[0]];
      assert n > 1 ==> path[..n][1..] == rest[..n - 1];
    }
    if Cut(below, rest) {
      var n :| 1 <= n <= |rest| && rest[..n] in below;
      var p :| p in paths && |p| >= 2 && p[0] == path[0] && p[1..] == rest[..n];
      assert p == path[..n + 1];
    }
    if [path[0]] in paths {
      assert path[..1] == [path[0]];
    }
  }

  lemma {:induction false} PrunedAt(source: Source, paths: set<seq<string>>, path: seq<string>)
    ensures At(Pruned(source, paths), path) == if Cut(paths, path) then Nothing else At(source, path)
    decreases |path|
  {
    if path != [] {
      CutBelow(paths, path);
      var k := path[0];
      if k in source && source[k].Object? && [k] !in paths {
        PrunedAt(source[k].fields, Below(paths, k), path[1..]);
      }
    }
  }

  lemma CutIsRemoved(keys: seq<string>, path: seq<string>)
    ensures Cut((set p | p in Paths(keys)), path) <==> Removed(keys, path)
  {
    var paths := Paths(keys);
    if Cut((set p | p in paths), path) {
      var n :| 1 <= n <= |path| && path[..n] in paths;
      var i :| 0 <= i < |paths| && paths[i] == path[..n];
      assert Split(keys[i], '.') == path[..n];
    }
    if Removed(keys, path) {
      var i, n :| 0 <= i < |keys| && 1 <= n <= |path| && Split(keys[i], '.') == path[..n];
      assert paths[i] == path[..n];
    }
  }

  lemma SourceAt(mode: PatchMode, current: Source, patch: Source, keys: seq<string>, path: seq<string>)
    ensures At(DeletedAll(Combined(mode, current, patch), Paths(keys)), path)
         == if Removed(keys, path) then Nothing else CombinedAt(mode, current, patch, path)
  {
    var combined := Combined(mode, current, patch);
    DeletedAllIsPruned(combined, Paths(keys));
    PrunedAt(combined, (set p | p in Paths(keys)), path);
    CutIsRemoved(keys, path);
    if mode.MergeDeep? { MergedAt(current, patch, path); }
  }

  lemma AtOne(source: Source, k: string)
    ensures At(source, [k]) == if k !in source then Nothing
                               else if source[k].Object? then Branch else Leaf(source[k])
  {
    assert [k][1..] == [];
  }

  /** Two sources with the same value at every path are the same source. */
  lemma {:induction false} SpotsDecide(a: Source, b: Source)
    requires forall path :: At(a, path) == At(b, path)
    ensures a == b
    decreases Object(a)
  {
    forall k: string
      ensures k in a <==> k in b
      ensures k in a && k in b ==> a[k] == b[k]
    {
      AtOne(a, k);
      AtOne(b, k);
      if k in a && a[k].Object? {
        forall path
          ensures At(a[k].fields, path) == At(b[k].fields, path)
        {
          assert ([k] + path)[1..] == path;
          assert At(a, [k] + path) == At(b, [k] + path);
        }
        SpotsDecide(a[k].fields, b[k].fields);
      }
    }
  }

  lemma ChangedDecides<T>(before: map<string, T>, changes: map<string, Option<T>>, after: map<string, T>)
    ensures Changed(before, changes, after) <==> after == SetOrRemoved(before, changes)
  {
    var r := SetOrRemoved(before, changes);
    assert Changed(before, changes, r);
    if Changed(before, changes, after) {
      assert forall name: string :: name in after <==> name in r;
      assert forall name: string :: name in after ==> after[name] == r[name];
    }
  }

  /** A patch of an existing document gives the one document that has at every path what the deleted
      keys, the patch and the old source leave there, and under every vector name what the changes
      leave there. */
  lemma PatchMeans(before: Document, patch: DocOp, after: Document)
    requires patch.Patch?
    ensures ApplyPatch(Some(before), patch) == Some(after) <==> Patched(before, patch, after)
  {
    var r := ApplyPatch(Some(before), patch).value;
    ChangedDecides(before.vectors, patch.vectors, after.vectors);
    ChangedDecides(before.sparseVectors, patch.sparseVectors, after.sparseVectors);
    forall path
      ensures At(r.source, path) == if Removed(patch.deleteKeys, path) then Nothing
                                    else CombinedAt(patch.mode, before.source, patch.source, path)
    {
      SourceAt(patch.mode, before.source, patch.source, patch.deleteKeys, path);
    }
    if Patched(before, patch, after) {
      assert forall path :: At(after.source, path) == At(r.source, path);
      SpotsDecide(after.source, r.source);
    }
  }

  /** A patch of a missing key gives its `upsert` document when that is a document of the key. */
  lemma MissingMeans(patch: DocOp, after: Document)
    requires patch.Patch?
    ensures ApplyPatch(None, patch) == Some(after) <==> patch.upsert == Some(after) && after.pk == patch.pk
  {
  }
}
