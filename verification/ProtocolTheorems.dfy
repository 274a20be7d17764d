/** What holds in every state any run of the protocol reaches. */
module ProtocolTheorems {
  import opened Prelude
  import opened RowLocator
  import opened Splits
  import opened Resolve
  import opened Batching
  import opened Offsets
  import opened RowSets
  import opened Commits
  import opened Letters
  import opened History
  import opened PkDeltas
  import opened PkIndexes
  import opened Protocol
  import opened ProtocolSafety

  ghost predicate Reachable(c: Config, s: State) {
    c.chunk > 0 && exists steps: seq<Step> :: IsRun(c, START, steps) && Reach(c, START, steps) == s
  }

  lemma ReachableInv(c: Config, s: State)
    requires Reachable(c, s)
    ensures Inv(c, s)
  {
    var steps :| IsRun(c, START, steps) && Reach(c, START, steps) == s;
    StartInv(c);
    hide Inv, IsRun, Reach;
    RunKeeps(c, START, steps);
  }

  function LiveManifest(s: State): Manifest {
    At(s.history, |s.history|)
  }

  // ---- The PK index ----

  /** If the index's watermark has the offsets of a manifest on the chain, the index maps exactly that
      manifest's live keys to their rows, whatever was crashed, fenced, replayed or rebuilt. */
  lemma PkIndexCrashSafe(c: Config, s: State, i: nat)
    requires Reachable(c, s) && i <= |s.history| && s.index.mark.applied == At(s.history, i).applied
    ensures Exact(s.index.keys, At(s.history, i).lance.rows)
  {
    ReachableInv(c, s);
    VersionAt(c.rules, s.history, i);
    assert s.index.mark != REBUILDING by { assert U32_MAX in REBUILDING.applied; }
    var j := s.index.mark.version;
    assert UniqueKeys(At(s.history, i).lance.rows) && ChainOk(c.rules, s.history) && Right(s.history, s.index);
    hide ChainOk, KeyRows, Inv;
    if i <= j { AppliedDecides(c.rules, s.history, i, j); } else { AppliedDecides(c.rules, s.history, j, i); }
    KeyRowsExact(At(s.history, i).lance.rows);
  }

  /** No step takes a watermark back to an older version, except past the rebuilding marker. */
  lemma IndexNotRolledBack(c: Config, s: State, step: Step)
    requires Reachable(c, s) && Enabled(c, s, step)
    ensures var after := Do(c, s, step);
            s.index.mark != REBUILDING && after.index.mark != REBUILDING ==>
              s.index.mark.version <= after.index.mark.version
  {
    hide Inv, Enabled, Do, Reachable;
    ReachableInv(c, s);
    match step
    case Catch(_, _, _) => CatchGoesOn(c, s, step);
    case StartRebuild(_, _, _, _) => RebuildGoesOn(c, s, step);
    case RebuildChunk(_, _) => ChunkOfMarker(c, s, step);
    case WritePk(_, _) => WritePkGoesOn(c, s, step);
    case _ => IndexUntouched(c, s, step);
  }

  lemma IndexUntouched(c: Config, s: State, step: Step)
    requires Enabled(c, s, step)
    requires !step.Catch? && !step.StartRebuild? && !step.RebuildChunk? && !step.WritePk?
    ensures Do(c, s, step).index == s.index
  {
    hide LinkManifest, IndexManifest;
  }

  lemma CatchGoesOn(c: Config, s: State, step: Step)
    requires Inv(c, s) && step.Catch? && Enabled(c, s, step)
    ensures s.index.mark.version <= Do(c, s, step).index.mark.version
  {
    hide ChainOk, StoreOk, KeyRows, ApplyDelta, ReplayFrom, StoreDescends;
    WorkerIs(c, s, step.w);
  }

  lemma RebuildGoesOn(c: Config, s: State, step: Step)
    requires Inv(c, s) && step.StartRebuild? && Enabled(c, s, step)
    ensures var after := Do(c, s, step);
            after.index.mark == REBUILDING || s.index.mark == REBUILDING
            || s.index.mark.version <= after.index.mark.version
  {
    hide ChainOk, StoreOk, KeyRows, ReplayFrom, StoreDescends, Lists, WriteAll;
    WorkerIs(c, s, step.w);
    MarkerWrite(s.index);
    LastMark(s.index, step.entries);
  }

  lemma ChunkOfMarker(c: Config, s: State, step: Step)
    requires Inv(c, s) && step.RebuildChunk? && Enabled(c, s, step)
    ensures s.index.mark == REBUILDING
  {
    hide ChainOk, StoreOk, KeyRows, Completes, Ends;
    WorkerIs(c, s, step.w);
  }

  lemma WritePkGoesOn(c: Config, s: State, step: Step)
    requires Inv(c, s) && step.WritePk? && Enabled(c, s, step)
    ensures s.index.mark.version <= Do(c, s, step).index.mark.version
  {
    hide ChainOk, StoreOk, KeyRows, ApplyDelta;
    WorkerIs(c, s, step.w);
  }

  lemma LastMark(index: Index, entries: seq<Entry>)
    ensures entries != [] && entries[|entries| - 1].Mark? ==>
              WriteAll(index, entries).mark == entries[|entries| - 1].mark
  {
  }

  /** Repairing an index never finds a history it cannot match or read; what it replays is what a
      rebuild would write. */
  lemma RepairAlwaysMatches(c: Config, s: State, w: nat, available: set<Path>)
    requires Reachable(c, s) && WorkerAt(s, w).phase.Opened?
    ensures var worker := WorkerAt(s, w);
            && worker.parent.Some? && worker.handle.Some?
            && Descends(worker.parent.value.manifest) && StoreDescends(s.store)
            && var current := worker.handle.value.view;
               var repair := RepairOf(s, worker.parent.value, current.mark, available);
               && !repair.RepairFails?
               && (repair.ReplayThese? ==>
                     ApplyDelta(current.keys, repair.changes) == KeyRows(worker.parent.value.manifest.lance.rows))
               && (repair.RebuildAll? && current.mark != REBUILDING ==>
                     ReplayFrom(s.store, available, current.mark, worker.parent.value.manifest).ReplayGone?)
  {
    ReachableInv(c, s);
    hide StoreHolds, StoreDescends, KeyRows, ApplyDelta, ReplayFrom, Follows, ChainOk;
    WorkerIs(c, s, w);
    var worker := WorkerAt(s, w);
    var p, view := worker.parent.value, worker.handle.value.view;
    AtDescends(c.rules, s.history, p.manifest.version);
    if view.mark != REBUILDING && view.mark.version <= p.manifest.version {
      ReplayIsRebuild(c.rules, s.history, s.store, available, view.mark.version, p.manifest.version, view.keys);
    }
  }

  // ---- The history ----

  /** The commits are versions 1, 2, and so on, each made from the one before, and the last is
      the live one. */
  lemma LinearHistory(c: Config, s: State)
    requires Reachable(c, s)
    ensures forall i :: 0 <= i < |s.history| ==>
              && s.history[i].manifest.version == i + 1 && s.history[i].manifest.parentVersion == i
              && s.history[i].manifest.parent == PathAt(s.history, i)
    ensures s.pointer == if s.history == [] then None
                         else Some(Pointer(|s.history|, s.history[|s.history| - 1].path))
  {
    ReachableInv(c, s);
    hide ChainOk, Follows, StoreOk, IndexTrue, WorkersOk;
    forall i | 0 <= i < |s.history|
      ensures s.history[i].manifest.version == i + 1 && s.history[i].manifest.parentVersion == i
           && s.history[i].manifest.parent == PathAt(s.history, i)
    {
      LinkAt(c.rules, s.history, i);
      VersionAt(c.rules, s.history, i);
      FollowsOffsets(c.rules, At(s.history, i), At(s.history, i + 1), s.history[i].batch);
    }
  }

  /** A step leaves the history alone or adds one commit, whose parent was the live manifest. */
  lemma CommitsOnLive(c: Config, s: State, step: Step)
    requires Reachable(c, s) && Enabled(c, s, step)
    ensures var after := Do(c, s, step);
            after.history == s.history || ((step.Cas? || step.LateCas?) && AddsToLive(s, after.history))
  {
    ReachableInv(c, s);
    if step.Cas? || step.LateCas? {
      CasOnLive(c, s, step);
    } else {
      hide Inv, Reachable;
    }
  }

  /** One commit more, made from the live manifest. */
  ghost predicate AddsToLive(s: State, history: seq<Commit>) {
    && |history| == |s.history| + 1 && history[..|s.history|] == s.history
    && var m := history[|s.history|].manifest;
       && m.parentVersion == LiveVersion(s)
       && m.parent == (if s.pointer.None? then None else Some(s.pointer.value.path))
  }

  lemma CasOnLive(c: Config, s: State, step: Step)
    requires Inv(c, s) && (step.Cas? || step.LateCas?) && Enabled(c, s, step)
    ensures AddsToLive(s, Do(c, s, step).history)
  {
    hide ChainOk, Follows, StoreOk, IndexTrue, WorkerOk, Whole, WorkersOk;
    WorkerIs(c, s, step.w);
    var worker := WorkerAt(s, step.w);
    VersionAt(c.rules, s.history, |s.history|);
    WorkerCommits(c.rules, s.history, s.store, worker);
    FollowsOffsets(c.rules, At(s.history, |s.history|), worker.phase.manifest, worker.phase.batch);
    assert Do(c, s, step).history == s.history + [Commit(worker.phase.path, worker.phase.manifest, worker.phase.batch)];
  }

  /** A CAS lands once, however often it is sent and however late a copy of it arrives. */
  lemma CasLandsOnce(c: Config, s: State, i: nat, j: nat)
    requires Reachable(c, s) && i < j < |s.history|
    ensures s.history[i].path != s.history[j].path
  {
    hide *;
    ReachableInv(c, s);
    InvStore(c, s);
    PathsDiffer(c.rules, s.store, s.history, i, j);
  }

  lemma InvStore(c: Config, s: State)
    requires Inv(c, s)
    ensures ChainOk(c.rules, s.history) && StoreHolds(s.store, s.history)
  {
    hide ChainOk, StoreHolds, StoreDescends, IndexTrue, WorkersOk, PointerOk;
  }

  /** A stored manifest has one version, so one place in the history. */
  lemma PathsDiffer(rules: Rules, store: Store, history: seq<Commit>, i: nat, j: nat)
    requires ChainOk(rules, history) && StoreHolds(store, history) && i < j < |history|
    ensures history[i].path != history[j].path
  {
    hide ChainOk, StoreHolds, Whole;
    InStore(store, history, i);
    InStore(store, history, j);
    VersionAt(rules, history, i + 1);
    VersionAt(rules, history, j + 1);
  }

  /** No record is consumed twice, and every partition is consumed in order. */
  lemma ExactlyOnce(c: Config, s: State, i: nat, j: nat)
    requires Reachable(c, s) && i < j < |Consumed(s.history)|
    ensures Consumed(s.history)[i].At() != Consumed(s.history)[j].At()
    ensures Consumed(s.history)[i].partition == Consumed(s.history)[j].partition ==>
              Consumed(s.history)[i].offset < Consumed(s.history)[j].offset
  {
    ReachableInv(c, s);
    ConsumedOnce(c.rules, s.history);
  }

  /** An index build or maintenance commit, on whatever manifest it was rebased, loses none of its
      rows, splits, offsets or counts. */
  lemma IndexBuildKeepsData(c: Config, s: State, i: nat)
    requires Reachable(c, s) && i < |s.history| && !s.history[i].manifest.kind.LinkApply?
    ensures SameData(At(s.history, i), At(s.history, i + 1)) && s.history[i].batch.records == []
  {
    ReachableInv(c, s);
    LinkAt(c.rules, s.history, i);
  }

  /** Offsets never go back; they add up to the records consumed and the offsets skipped; and the dead
      letters counted are those of the one-pass model of the records consumed. */
  lemma OffsetsAddUp(c: Config, s: State, i: nat)
    requires Reachable(c, s) && i <= |s.history|
    ensures var m := LiveManifest(s);
            && AppliedLe(At(s.history, i).applied, m.applied)
            && AppliedTotal(m.applied) == |Consumed(s.history)| + m.skippedTotal
            && m.lettersTotal == |StreamLetters(c.rules, Consumed(s.history))| <= |Consumed(s.history)|
  {
    ReachableInv(c, s);
    hide ChainOk, AppliedLe, AppliedTotal, Consumed, StreamLetters;
    LettersAreStream(c.rules, s.history);
    AppliedMonotone(c.rules, s.history, i, |s.history|);
    ChainConserves(c.rules, s.history);
  }

  // ---- The three structures ----

  /** The six rules of `verify_collection`, for what the collection should hold. */
  ghost predicate Agrees(m: Manifest, index: Index, expected: Docs) {
    && RowKeys(m.lance.rows) == expected.Keys
    && (forall r :: r in m.lance.rows ==> expected[KeyAt(m.lance.rows, r)] == m.lance.rows[r])
    && UniqueKeys(m.lance.rows)
    && LiveCount(m.splits) == m.liveDocs == |expected|
    && (forall s: nat, d: nat, row: nat :: LiveDoc(m.splits, s, d, row) ==> DocAgrees(m, s, d, row))
    && (forall row :: row in m.lance.rows ==> OnceLive(m.splits, row))
    && (index.mark.applied == m.applied ==> Exact(index.keys, m.lance.rows))
  }

  /** Row `row`, doc `d` of split `s`, is a live Lance row with the key that the doc stores. */
  ghost predicate DocAgrees(m: Manifest, s: nat, d: nat, row: nat)
    requires s < |m.splits|
  {
    && row in m.lance.rows && d < |m.splits[s].keys| && m.splits[s].keys[d] == KeyAt(m.lance.rows, row)
  }

  /** Exactly one live doc of the splits is row `row`. */
  ghost predicate OnceLive(splits: seq<SplitRef>, row: nat) {
    && (exists s: nat, d: nat :: LiveDoc(splits, s, d, row))
    && (forall s: nat, d: nat, t: nat, e: nat ::
          LiveDoc(splits, s, d, row) && LiveDoc(splits, t, e, row) ==> s == t && d == e)
  }

  lemma DocsAtRows(rows: RowSet)
    requires UniqueKeys(rows)
    ensures var docs := DocsAt(KeyRows(rows), rows);
            && docs.Keys == RowKeys(rows) && |docs| == |rows|
            && forall r :: r in rows ==> docs[KeyAt(rows, r)] == rows[r]
  {
    KeyRowsExact(rows);
    KeyCount(KeyRows(rows), rows);
    var docs := DocsAt(KeyRows(rows), rows);
    assert docs.Keys == KeyRows(rows).Keys;
    assert |docs.Keys| == |KeyRows(rows).Keys|;
  }

  lemma WholeAgrees(m: Manifest)
    requires Whole(m)
    ensures LiveCount(m.splits) == m.liveDocs == |m.lance.rows|
    ensures forall s: nat, d: nat, row: nat :: LiveDoc(m.splits, s, d, row) ==> DocAgrees(m, s, d, row)
    ensures forall row :: row in m.lance.rows ==> OnceLive(m.splits, row)
  {
    hide *;
    Commits.WholeSplits(m);
    LiveSize(m.splits);
    forall s: nat, d: nat, row: nat | LiveDoc(m.splits, s, d, row)
      ensures s < |m.splits| && DocAgrees(m, s, d, row)
    {
      OneLiveDoc(m.splits, row);
      DocKey(m, s, d, row);
    }
    forall row | row in m.lance.rows ensures OnceLive(m.splits, row) {
      OneLiveDoc(m.splits, row);
      IsOnceLive(m.splits, row);
    }
  }

  lemma IsOnceLive(splits: seq<SplitRef>, row: nat)
    requires exists s: nat, d: nat :: LiveDoc(splits, s, d, row)
    requires forall s: nat, d: nat, t: nat, e: nat ::
               LiveDoc(splits, s, d, row) && LiveDoc(splits, t, e, row) ==> s == t && d == e
    ensures OnceLive(splits, row)
  {
    hide LiveDoc;
  }

  lemma DocKey(m: Manifest, s: nat, d: nat, row: nat)
    requires Whole(m) && LiveDoc(m.splits, s, d, row) && row in m.lance.rows
    ensures s < |m.splits| && DocAgrees(m, s, d, row)
  {
    hide SplitsOk, Live, AllRows, UniqueKeys;
    assert SplitKeyed(m.splits[s], m.lance.rows);
  }

  /** In every reachable state the live manifest's rows, its splits and, once it has caught up, the PK
      index hold exactly what the consumed part of the stream folds to. */
  lemma CollectionVerifies(c: Config, s: State)
    requires Reachable(c, s)
    ensures Agrees(LiveManifest(s), s.index, StreamFold(c.rules, Consumed(s.history)))
  {
    hide Reachable, Inv, ChainOk, Whole, StreamFold, Consumed, KeyRows, UniqueKeys, RowKeys, OnceLive, LiveDoc,
         LiveCount, Exact;
    ReachableInv(c, s);
    InvChain(c, s);
    var m := LiveManifest(s);
    VersionAt(c.rules, s.history, |s.history|);
    WholeUnique(m);
    DocsAreStream(c.rules, s.history);
    ManifestDocsAre(m);
    hide ManifestDocs, DocsAt, At;
    DocsAtRows(m.lance.rows);
    WholeAgrees(m);
    if s.index.mark.applied == m.applied {
      PkIndexCrashSafe(c, s, |s.history|);
    }
  }

  lemma WholeUnique(m: Manifest)
    requires Whole(m)
    ensures UniqueKeys(m.lance.rows)
  {
    hide UniqueKeys, SplitsOk, Live, AllRows, Keyed;
  }

  lemma InvChain(c: Config, s: State)
    requires Inv(c, s)
    ensures ChainOk(c.rules, s.history)
  {
    hide ChainOk;
  }

  /** A worker that builds on the live manifest with a handle it may reuse never meets an error in
      resolving, locating or counting. */
  lemma LiveCommitNeverFails(c: Config, s: State, w: nat, batch: Batch, r: Resolution, rows: NewRows)
    requires Reachable(c, s) && WorkerAt(s, w).phase.Idle?
    requires WorkerAt(s, w).parent.Some? && WorkerAt(s, w).handle.Some?
    requires var p, h := WorkerAt(s, w).parent.value, WorkerAt(s, w).handle.value;
             h.mark.applied == p.manifest.applied && p.manifest.version == LiveVersion(s)
    ensures var p, h := WorkerAt(s, w).parent.value, WorkerAt(s, w).handle.value;
            && (forall k :: KeyEnd(c.rules, p.manifest.lance.rows, h.view.keys, batch.records, k).Ok?)
            && Acceptable(RangesOf(p.manifest.splits))
            && (Applies(c.rules, p.manifest, h.view.keys, batch, r, rows) ==>
                  && CanDelete(p.manifest.splits, r.retired.Values)
                  && p.manifest.liveDocs + |r.inserts| >= |r.retired|)
  {
    hide ChainOk, Applies, KeyRows, Whole, Right, StoreOk, IndexTrue, Acceptable, CanDelete, KeyEnd;
    ReachableInv(c, s);
    WorkerIs(c, s, w);
    var p, h := WorkerAt(s, w).parent.value, WorkerAt(s, w).handle.value;
    HandleReads(c.rules, s.history, h, p);
    VersionAt(c.rules, s.history, p.manifest.version);
    hide *;
    forall k ensures KeyEnd(c.rules, p.manifest.lance.rows, h.view.keys, batch.records, k).Ok? {
      ResolveNeverFails(c.rules, p.manifest, h.view.keys, batch.records, k);
    }
    Commits.WholeSplits(p.manifest);
    SplitsAcceptable(p.manifest.splits);
    if Applies(c.rules, p.manifest, h.view.keys, batch, r, rows) {
      CommitNeverFails(c.rules, p.manifest, h.view.keys, batch, r, rows);
    }
  }
}
