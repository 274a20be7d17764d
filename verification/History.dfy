/** A chain of committed manifests, and what every such chain keeps. */
module History {
  import opened Prelude
  import opened Splits
  import opened Resolve
  import opened Batching
  import opened Offsets
  import opened RowSets
  import opened Commits
  import opened Letters

  /** One commit: its manifest, where it is stored, and the batch it applied (an index build applies
      none). */
  datatype Commit = Commit(path: Path, manifest: Manifest, batch: Batch)

  const NOTHING: Batch := Batch([], map[])

  /** The records of a batch come in offset order, and no stream has partition `u32::MAX`. */
  ghost predicate BatchOk(batch: Batch) {
    StreamOrdered(batch.records) && |batch.records| <= U32_MAX && U32_MAX !in batch.appliedAfter
  }

  /** `m` is what applying `batch` to `parent` should give. */
  ghost predicate Follows(rules: Rules, parent: Manifest, m: Manifest, batch: Batch) {
    && Whole(m) && m.version == parent.version + 1 && m.parentVersion == parent.version
    && BatchOk(batch) && BatchFits(parent.applied, batch)
    && m.applied == parent.applied + batch.appliedAfter
    && KeyRows(m.lance.rows) == ApplyDelta(KeyRows(parent.lance.rows), Replay(m))
    && (batch.records == [] ==> Replay(m) == map[])
    && ManifestDocs(m) == CommitDocs(rules, ManifestDocs(parent), batch.records)
    && m.skippedTotal == parent.skippedTotal + Skipped(parent.applied, batch)
    && LettersFollow(rules, parent, m, batch)
    && (!m.kind.LinkApply? ==> batch == NOTHING && SameData(parent, m))
  }

  /** The count grows by the dead letters of the batch, and there is an object of them when there are
      any. */
  ghost predicate LettersFollow(rules: Rules, parent: Manifest, m: Manifest, batch: Batch) {
    var letters := BatchLetters(rules, ManifestDocs(parent), batch.records);
    m.lettersTotal == parent.lettersTotal + |letters| && (m.letters.Some? <==> letters != multiset{})
  }

  /** The same rows, splits, offsets and counts. */
  ghost predicate SameData(a: Manifest, b: Manifest) {
    && a.lance.rows == b.lance.rows && a.lance.nextRow == b.lance.nextRow && a.splits == b.splits
    && a.applied == b.applied && a.liveDocs == b.liveDocs
    && a.lettersTotal == b.lettersTotal && a.skippedTotal == b.skippedTotal
  }

  /** A link-apply commit with an exact view follows its parent. */
  lemma LinkFollows(
    rules: Rules, parent: Manifest, view: KeyMap, batch: Batch, r: Resolution, w: NewRows,
    parentPath: Option<Path>, started: nat, objects: NewObjects, indexes: set<string>)
    requires Whole(parent) && view == KeyRows(parent.lance.rows) && Applies(rules, parent, view, batch, r, w)
    requires BatchOk(batch)
    ensures Follows(rules, parent, LinkManifest(parent, parentPath, started, batch, r, w, objects, indexes), batch)
  {
    hide *;
    var m := LinkManifest(parent, parentPath, started, batch, r, w, objects, indexes);
    BatchSize(batch);
    AppliesFits(rules, parent, view, batch, r, w);
    LinkCounts(parent, batch, r, w, parentPath, started, objects, indexes);
    LinkKeepsWhole(rules, parent, view, batch, r, w, parentPath, started, objects, indexes);
    LinkKeyRows(rules, parent, view, batch, r, w, parentPath, started, objects, indexes);
    LinkDocs(rules, parent, view, batch, r, w, parentPath, started, objects, indexes);
    LinkLetters(rules, parent, view, batch, r, w, parentPath, started, objects, indexes);
    if batch.records == [] {
      NothingResolved(rules, parent.lance.rows, view, batch.records, r);
      ReplayIsDelta(parent, batch, r, w, parentPath, started, objects, indexes);
      NoDelta(r, w);
    }
    MakeFollows(rules, parent, m, batch);
  }

  lemma BatchSize(batch: Batch)
    requires BatchOk(batch)
    ensures |batch.records| <= U32_MAX
  {
  }

  lemma LinkLetters(
    rules: Rules, parent: Manifest, view: KeyMap, batch: Batch, r: Resolution, w: NewRows,
    parentPath: Option<Path>, started: nat, objects: NewObjects, indexes: set<string>)
    requires Whole(parent) && view == KeyRows(parent.lance.rows) && Applies(rules, parent, view, batch, r, w)
    ensures LettersFollow(
              rules, parent, LinkManifest(parent, parentPath, started, batch, r, w, objects, indexes), batch)
  {
    hide *;
    LinkCounts(parent, batch, r, w, parentPath, started, objects, indexes);
    AppliesParts(rules, parent, view, batch, r, w);
    ResolutionLetters(rules, parent.lance.rows, view, batch.records, r);
    ManifestDocsAre(parent);
    var m := LinkManifest(parent, parentPath, started, batch, r, w, objects, indexes);
    LettersFollowIs(rules, parent, m, batch);
  }

  lemma LettersFollowIs(rules: Rules, parent: Manifest, m: Manifest, batch: Batch)
    ensures var letters := BatchLetters(rules, ManifestDocs(parent), batch.records);
            LettersFollow(rules, parent, m, batch) <==>
            m.lettersTotal == parent.lettersTotal + |letters| && (m.letters.Some? <==> letters != multiset{})
  {
  }

  lemma MakeFollows(rules: Rules, parent: Manifest, m: Manifest, batch: Batch)
    requires Whole(m) && m.version == parent.version + 1 && m.parentVersion == parent.version && m.kind.LinkApply?
    requires BatchOk(batch) && BatchFits(parent.applied, batch)
    requires m.applied == parent.applied + batch.appliedAfter
    requires KeyRows(m.lance.rows) == ApplyDelta(KeyRows(parent.lance.rows), Replay(m))
    requires batch.records == [] ==> Replay(m) == map[]
    requires ManifestDocs(m) == CommitDocs(rules, ManifestDocs(parent), batch.records)
    requires m.skippedTotal == parent.skippedTotal + Skipped(parent.applied, batch)
    requires LettersFollow(rules, parent, m, batch)
    ensures Follows(rules, parent, m, batch)
  {
    hide Whole, KeyRows, ManifestDocs, ApplyDelta, CommitDocs, Skipped, BatchOk, BatchFits, Replay, SameData,
         LettersFollow;
  }

  lemma AppliesFits(rules: Rules, parent: Manifest, view: KeyMap, batch: Batch, r: Resolution, w: NewRows)
    requires Applies(rules, parent, view, batch, r, w)
    ensures BatchFits(parent.applied, batch)
    ensures Resolves(rules, parent.lance.rows, view, batch.records, KeysOf(rules, batch.records), r)
  {
  }

  lemma LinkCounts(
    parent: Manifest, batch: Batch, r: Resolution, w: NewRows,
    parentPath: Option<Path>, started: nat, objects: NewObjects, indexes: set<string>)
    ensures var m := LinkManifest(parent, parentPath, started, batch, r, w, objects, indexes);
            && m.version == parent.version + 1 && m.parentVersion == parent.version && m.kind == LinkApply
            && m.applied == parent.applied + batch.appliedAfter
            && m.skippedTotal == parent.skippedTotal + Skipped(parent.applied, batch)
            && m.lettersTotal == parent.lettersTotal + |r.letters|
            && (m.letters.Some? <==> r.letters != multiset{}) && m.createdAt == started && m.parent == parentPath
            && (forall n :: n in m.indexes <==> n in parent.indexes && n in indexes)
  {
    hide KeyRows, LinkSplits, DeltaOf, Skipped, Replaced;
  }

  lemma NothingResolved(rules: Rules, rows: RowSet, view: KeyMap, records: seq<StreamRecord>, r: Resolution)
    requires Resolves(rules, rows, view, records, KeysOf(rules, records), r) && records == []
    ensures r.inserts == map[] && r.retired == map[]
  {
    hide KeyEnd;
    assert KeysOf(rules, records) == {};
    assert r.inserts.Keys == {} && r.retired.Keys == {};
  }

  lemma NoDelta(r: Resolution, w: NewRows)
    requires r.inserts == map[] && r.retired == map[]
    ensures DeltaOf(r, w) == map[]
  {
    hide KeyRows;
  }

  lemma NoCommitDocs(rules: Rules, docs: Docs)
    ensures CommitDocs(rules, docs, []) == docs
  {
    assert forall k :: KeyOps(rules, [], k) == [];
  }

  /** An index build follows its parent with nothing applied. */
  lemma IndexFollows(
    rules: Rules, parent: Manifest, parentPath: Option<Path>, started: nat, index: string, removed: set<string>,
    files: set<Path>, kind: Kind)
    requires Whole(parent)
    ensures Follows(rules, parent, IndexManifest(parent, parentPath, started, index, removed, files, kind), NOTHING)
  {
    IndexKeepsAll(parent, parentPath, started, index, removed, files, kind);
    NoCommitDocs(rules, ManifestDocs(parent));
    NothingSkipped(parent.applied);
    hide Whole, KeyRows, ManifestDocs, ApplyDelta, CommitDocs, Skipped;
    assert parent.applied + map[] == parent.applied;
  }

  lemma NothingSkipped(applied: Applied)
    ensures Skipped(applied, NOTHING) == 0
  {
    assert NOTHING.appliedAfter.Keys == {};
  }

  // ---- Chains ----

  /** Version `i` of a chain. */
  function At(history: seq<Commit>, i: nat): Manifest
    requires i <= |history|
  {
    if i == 0 then EMPTY else history[i - 1].manifest
  }

  function PathAt(history: seq<Commit>, i: nat): Option<Path>
    requires i <= |history|
  {
    if i == 0 then None else Some(history[i - 1].path)
  }

  ghost predicate LinkOk(rules: Rules, history: seq<Commit>, i: nat)
    requires i < |history|
  {
    Follows(rules, At(history, i), history[i].manifest, history[i].batch)
    && history[i].manifest.parent == PathAt(history, i)
  }

  /** Commit `i` is version `i + 1`, made from version `i`. */
  ghost predicate ChainOk(rules: Rules, history: seq<Commit>) {
    forall i: nat :: i < |history| ==> LinkOk(rules, history, i)
  }

  lemma EmptyIsWhole()
    ensures Whole(EMPTY) && KeyRows(EMPTY.lance.rows) == map[] && ManifestDocs(EMPTY) == map[]
  {
  }

  lemma LinkAt(rules: Rules, history: seq<Commit>, i: nat)
    requires ChainOk(rules, history) && i < |history|
    ensures Follows(rules, At(history, i), At(history, i + 1), history[i].batch)
    ensures At(history, i + 1).parent == PathAt(history, i)
  {
    hide Follows;
    assert LinkOk(rules, history, i);
  }

  lemma FollowsOffsets(rules: Rules, parent: Manifest, m: Manifest, batch: Batch)
    requires Follows(rules, parent, m, batch)
    ensures BatchFits(parent.applied, batch) && m.applied == parent.applied + batch.appliedAfter
    ensures Whole(m) && m.version == parent.version + 1 && m.parentVersion == parent.version
    ensures U32_MAX !in parent.applied ==> U32_MAX !in m.applied
  {
    hide Whole, KeyRows, ManifestDocs, ApplyDelta, CommitDocs, Skipped, BatchFits;
  }

  lemma FollowsKeys(rules: Rules, parent: Manifest, m: Manifest, batch: Batch)
    requires Follows(rules, parent, m, batch)
    ensures KeyRows(m.lance.rows) == ApplyDelta(KeyRows(parent.lance.rows), Replay(m))
    ensures m.applied == parent.applied ==> KeyRows(m.lance.rows) == KeyRows(parent.lance.rows)
  {
    hide Whole, KeyRows, ManifestDocs, ApplyDelta, CommitDocs, Skipped, BatchFits;
    if m.applied == parent.applied {
      if batch.records != [] {
        RecordMoves(parent.applied, batch);
      } else {
        NothingToApply(KeyRows(parent.lance.rows));
      }
    }
  }

  lemma {:induction false} VersionAt(rules: Rules, history: seq<Commit>, i: nat)
    requires ChainOk(rules, history) && i <= |history|
    ensures At(history, i).version == i && Whole(At(history, i)) && U32_MAX !in At(history, i).applied
  {
    hide Whole, ChainOk, Follows;
    if i == 0 {
      EmptyIsWhole();
    } else {
      hide *;
      VersionAt(rules, history, i - 1);
      LinkAt(rules, history, i - 1);
      FollowsOffsets(rules, At(history, i - 1), At(history, i), history[i - 1].batch);
    }
  }

  /** A follower extends the chain. */
  lemma ChainGrows(rules: Rules, history: seq<Commit>, c: Commit)
    requires ChainOk(rules, history)
    requires Follows(rules, At(history, |history|), c.manifest, c.batch)
             && c.manifest.parent == PathAt(history, |history|)
    ensures ChainOk(rules, history + [c])
  {
    hide Follows;
    var longer := history + [c];
    forall i: nat | i < |longer| ensures LinkOk(rules, longer, i) {
      assert At(longer, i) == At(history, i) && PathAt(longer, i) == PathAt(history, i);
      if i < |history| { assert LinkOk(rules, history, i); }
    }
  }

  // ---- Offsets along a chain ----

  lemma {:induction false} AppliedMonotone(rules: Rules, history: seq<Commit>, i: nat, j: nat)
    requires ChainOk(rules, history) && i <= j <= |history|
    ensures AppliedLe(At(history, i).applied, At(history, j).applied)
    decreases j
  {
    hide ChainOk, Follows;
    if i < j {
      var before, m := At(history, j - 1), At(history, j);
      hide *;
      AppliedMonotone(rules, history, i, j - 1);
      LinkAt(rules, history, j - 1);
      FollowsOffsets(rules, before, m, history[j - 1].batch);
      AppliedGrows(before.applied, history[j - 1].batch);
      AppliedTransitive(At(history, i).applied, before.applied, m.applied);
    } else {
      assert AppliedLe(At(history, i).applied, At(history, i).applied);
    }
  }

  lemma AppliedAntisymmetric(a: Applied, b: Applied)
    requires AppliedLe(a, b) && AppliedLe(b, a)
    ensures a == b
  {
    assert forall p :: p in a ==> a[p] <= b[p] && b[p] <= a[p];
  }

  lemma AppliedTransitive(a: Applied, b: Applied, c: Applied)
    requires AppliedLe(a, b) && AppliedLe(b, c)
    ensures AppliedLe(a, c)
  {
    forall p | p in a ensures a[p] <= c[p] {
      assert a[p] <= b[p] <= c[p];
    }
  }

  /** Along a chain, the applied offsets determine the key map. */
  lemma {:induction false} AppliedDecides(rules: Rules, history: seq<Commit>, i: nat, j: nat)
    requires ChainOk(rules, history) && i <= j <= |history|
    requires At(history, i).applied == At(history, j).applied
    ensures KeyRows(At(history, i).lance.rows) == KeyRows(At(history, j).lance.rows)
    decreases j
  {
    if i < j {
      hide *;
      AppliedMonotone(rules, history, i, j - 1);
      AppliedMonotone(rules, history, j - 1, j);
      AppliedAntisymmetric(At(history, j - 1).applied, At(history, j).applied);
      AppliedDecides(rules, history, i, j - 1);
      LinkAt(rules, history, j - 1);
      FollowsKeys(rules, At(history, j - 1), At(history, j), history[j - 1].batch);
    }
  }

  // ---- The stream a chain consumed ----

  function Batches(history: seq<Commit>): seq<seq<StreamRecord>> {
    seq(|history|, i requires 0 <= i < |history| => history[i].batch.records)
  }

  /** Every record the chain consumed, in commit order. */
  function Consumed(history: seq<Commit>): seq<StreamRecord> {
    Concat(Batches(history))
  }

  lemma ConsumedStep(history: seq<Commit>)
    requires history != []
    ensures var n := |history| - 1;
            && Batches(history) == Batches(history[..n]) + [history[n].batch.records]
            && Consumed(history) == Consumed(history[..n]) + history[n].batch.records
  {
    var n := |history| - 1;
    assert Batches(history)[..n] == Batches(history[..n]);
  }

  lemma ChainFront(rules: Rules, history: seq<Commit>)
    requires ChainOk(rules, history) && history != []
    ensures ChainOk(rules, history[..|history| - 1])
    ensures At(history[..|history| - 1], |history| - 1) == At(history, |history| - 1)
  {
    hide Follows;
    var front := history[..|history| - 1];
    forall i: nat | i < |front| ensures LinkOk(rules, front, i) {
      assert LinkOk(rules, history, i);
      assert At(front, i) == At(history, i) && PathAt(front, i) == PathAt(history, i);
    }
  }

  /** Every consumed record lies below the applied offset of its partition. */
  ghost predicate Below(records: seq<StreamRecord>, applied: Applied) {
    forall i :: 0 <= i < |records| ==> records[i].offset < UpTo(applied, records[i].partition)
  }

  lemma StreamAppends(records: seq<StreamRecord>, applied: Applied, batch: Batch)
    requires StreamOrdered(records) && Below(records, applied)
    requires StreamOrdered(batch.records) && BatchFits(applied, batch)
    ensures StreamOrdered(records + batch.records) && Below(records + batch.records, applied + batch.appliedAfter)
  {
    var all, after := records + batch.records, applied + batch.appliedAfter;
    forall i | 0 <= i < |all| ensures all[i].offset < UpTo(after, all[i].partition) {
      if i >= |records| {
        assert Covered(applied, batch.appliedAfter, batch.records[i - |records|]);
      }
    }
    forall i, j | 0 <= i < j < |all| && all[i].partition == all[j].partition ensures all[i].offset < all[j].offset {
      if i < |records| <= j {
        assert Covered(applied, batch.appliedAfter, batch.records[j - |records|]);
      }
    }
  }

  /** A chain consumes every partition in offset order: no record twice. */
  lemma {:induction false} ConsumedOnce(rules: Rules, history: seq<Commit>)
    requires ChainOk(rules, history)
    ensures StreamOrdered(Consumed(history)) && Below(Consumed(history), At(history, |history|).applied)
  {
    if history != [] {
      var n := |history| - 1;
      ChainFront(rules, history);
      ConsumedOnce(rules, history[..n]);
      ConsumedStep(history);
      assert LinkOk(rules, history, n);
      hide Whole, KeyRows, ManifestDocs, ApplyDelta, CommitDocs, Skipped, StreamOrdered, Below, BatchFits, Consumed;
      StreamAppends(Consumed(history[..n]), At(history, n).applied, history[n].batch);
    }
  }

  lemma {:induction false} DocsAreBatches(rules: Rules, history: seq<Commit>)
    requires ChainOk(rules, history)
    ensures ManifestDocs(At(history, |history|)) == FoldBatches(rules, Batches(history))
  {
    if history == [] {
      EmptyIsWhole();
    } else {
      var n := |history| - 1;
      ChainFront(rules, history);
      DocsAreBatches(rules, history[..n]);
      ConsumedStep(history);
      assert LinkOk(rules, history, n);
      hide Whole, KeyRows, ManifestDocs, ApplyDelta, CommitDocs, Skipped, BatchFits, Consumed;
      assert Batches(history)[..n] == Batches(history[..n]);
    }
  }

  /** The live manifest holds exactly what the stream it consumed folds to. */
  lemma DocsAreStream(rules: Rules, history: seq<Commit>)
    requires ChainOk(rules, history)
    ensures ManifestDocs(At(history, |history|)) == StreamFold(rules, Consumed(history))
  {
    DocsAreBatches(rules, history);
    ConsumedOnce(rules, history);
    hide Whole, ManifestDocs;
    BatchingRefinesStream(rules, Batches(history));
  }

  lemma FollowsLetters(rules: Rules, parent: Manifest, m: Manifest, batch: Batch)
    requires Follows(rules, parent, m, batch)
    ensures LettersFollow(rules, parent, m, batch)
  {
    hide Whole, KeyRows, ManifestDocs, ApplyDelta, CommitDocs, Skipped, BatchFits, LettersFollow;
  }

  lemma {:induction false} ChainLetters(rules: Rules, history: seq<Commit>)
    requires ChainOk(rules, history)
    ensures At(history, |history|).lettersTotal == |BatchesLetters(rules, Batches(history))|
  {
    if history != [] {
      var n := |history| - 1;
      assert Batches(history)[..n] == Batches(history[..n]) && Batches(history)[n] == history[n].batch.records;
      hide ChainOk, Follows, ManifestDocs, FoldBatches, BatchLetters, Batches;
      ChainFront(rules, history);
      ChainLetters(rules, history[..n]);
      DocsAreBatches(rules, history[..n]);
      LinkAt(rules, history, n);
      FollowsLetters(rules, At(history, n), At(history, n + 1), history[n].batch);
    }
  }

  /** `lettersTotal` is the number of dead letters the one-pass model gives the stream the chain
      consumed, however its commits cut that stream. */
  lemma LettersAreStream(rules: Rules, history: seq<Commit>)
    requires ChainOk(rules, history)
    ensures At(history, |history|).lettersTotal == |StreamLetters(rules, Consumed(history))|
  {
    hide ChainOk, BatchesLetters, StreamLetters;
    ChainLetters(rules, history);
    ConsumedOnce(rules, history);
    BatchingKeepsLetters(rules, Batches(history));
  }

  /** The applied offsets are the records consumed and the offsets skipped, and the dead letters are
      no more than the records. */
  lemma {:induction false} ChainConserves(rules: Rules, history: seq<Commit>)
    requires ChainOk(rules, history)
    ensures var m := At(history, |history|);
            && AppliedTotal(m.applied) == |Consumed(history)| + m.skippedTotal
            && m.lettersTotal <= |Consumed(history)|
  {
    if history == [] {
      assert EMPTY.applied.Keys == {};
    } else {
      var n := |history| - 1;
      ChainFront(rules, history);
      ChainConserves(rules, history[..n]);
      ConsumedStep(history);
      assert LinkOk(rules, history, n);
      LettersBounded(rules, ManifestDocs(At(history, n)), history[n].batch.records);
      hide Whole, KeyRows, ManifestDocs, ApplyDelta, CommitDocs, Skipped, BatchFits, Consumed, AppliedTotal,
           StreamOrdered, BatchLetters;
      OffsetsConserved(At(history, n).applied, history[n].batch);
    }
  }
}
