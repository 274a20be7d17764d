/** What every run of the protocol keeps. */
module ProtocolSafety {
  import opened Prelude
  import opened Splits
  import opened Resolve
  import opened Offsets
  import opened RowSets
  import opened Commits
  import opened History
  import opened PkDeltas
  import opened PkIndexes
  import opened Protocol

  // ---- The invariant ----

  /** `x` is the index of one version of the chain. */
  ghost predicate Right(history: seq<Commit>, x: Index) {
    && x.mark.version <= |history|
    && x.mark == MarkAt(history, x.mark.version)
    && x.keys == KeyRows(At(history, x.mark.version).lance.rows)
  }

  /** An index is right for some version, or says that it is being rebuilt. */
  ghost predicate IndexTrue(history: seq<Commit>, x: Index) {
    x.mark == REBUILDING || Right(history, x)
  }

  ghost predicate ParentOk(history: seq<Commit>, p: Parent) {
    && p.manifest.version <= |history|
    && p.manifest == At(history, p.manifest.version) && p.path == PathAt(history, p.manifest.version)
  }

  /** A handle in use reads a right index; the watermark it remembers is no newer than that index. */
  ghost predicate HandleOk(history: seq<Commit>, h: Handle) {
    && Right(history, h.view)
    && h.mark.version <= h.view.mark.version && h.mark == MarkAt(history, h.mark.version)
  }

  /** The handle reads the key map of `m`. */
  ghost predicate Reads(h: Handle, m: Manifest) {
    h.view.keys == KeyRows(m.lance.rows) && h.view.mark.version <= m.version
  }

  /** Another commit took the version after `v`. */
  ghost predicate Doomed(history: seq<Commit>, v: nat, path: Path) {
    v < |history| && history[v].path != path
  }

  ghost predicate PreparedOk(rules: Rules, history: seq<Commit>, worker: Worker)
    requires (worker.phase.Prepared? || worker.phase.Sent?) && worker.parent.Some?
  {
    var p, m := worker.parent.value, worker.phase.manifest;
    && m.parent == p.path
    && (|| Doomed(history, p.manifest.version, worker.phase.path)
        || (&& Follows(rules, p.manifest, m, worker.phase.batch)
            && (worker.phase.Prepared? && m.kind.LinkApply? ==>
                  worker.handle.Some? && Reads(worker.handle.value, p.manifest))))
  }

  ghost predicate RebuildingOk(history: seq<Commit>, worker: Worker)
    requires worker.phase.Rebuilding? && worker.parent.Some? && worker.handle.Some?
  {
    var p, view := worker.parent.value, worker.handle.value.view;
    && view.mark == REBUILDING && worker.phase.target == Target(p)
    && Completes(view, worker.phase.rest, KeyRows(p.manifest.lance.rows), Target(p))
    && Ends(worker.phase.rest, Target(p))
  }

  ghost predicate LandedOk(history: seq<Commit>, worker: Worker)
    requires worker.phase.Landed? && worker.parent.Some? && worker.handle.Some?
  {
    var p, h := worker.parent.value, worker.handle.value;
    && worker.phase.target == Target(p) && h.view.mark.version <= p.manifest.version
    && ApplyDelta(h.view.keys, worker.phase.delta) == KeyRows(p.manifest.lance.rows)
  }

  ghost predicate WorkerOk(rules: Rules, history: seq<Commit>, store: Store, worker: Worker) {
    && (worker.parent.Some? ==> ParentOk(history, worker.parent.value))
    && (!worker.phase.Idle? ==> worker.parent.Some?)
    && (worker.handle.Some? && !worker.phase.Opened? && !worker.phase.Rebuilding? ==>
          HandleOk(history, worker.handle.value))
    && match worker.phase
       case Idle => true
       case Opened => worker.handle.Some? && IndexTrue(history, worker.handle.value.view)
       case Rebuilding(_, _) => worker.handle.Some? && RebuildingOk(history, worker)
       case Prepared(path, m, _) => path in store && store[path] == m && PreparedOk(rules, history, worker)
       case Sent(path, m, _) =>
         worker.handle.None? && path in store && store[path] == m && PreparedOk(rules, history, worker)
       case Landed(_, _) => worker.handle.Some? && LandedOk(history, worker)
  }

  /** Every handle is of an earlier or the current epoch; one of the current epoch reads the durable
      index. */
  ghost predicate Synced(s: State, worker: Worker) {
    worker.handle.Some? ==>
      && worker.handle.value.epoch <= s.epoch
      && (worker.handle.value.epoch == s.epoch ==> worker.handle.value.view == s.index)
  }

  ghost predicate Apart(a: Worker, b: Worker) {
    a.handle.Some? && b.handle.Some? ==> a.handle.value.epoch != b.handle.value.epoch
  }

  ghost predicate PointerOk(s: State) {
    s.pointer == if s.history == [] then None
                 else Some(Pointer(|s.history|, s.history[|s.history| - 1].path))
  }

  ghost predicate StoreOk(s: State) {
    StoreHolds(s.store, s.history) && StoreDescends(s.store)
  }

  ghost predicate WorkersOk(c: Config, s: State) {
    && (forall w :: w in s.workers ==> WorkerOk(c.rules, s.history, s.store, s.workers[w]))
    && (forall w :: w in s.workers ==> Synced(s, s.workers[w]))
    && (forall v, w :: v in s.workers && w in s.workers && v != w ==> Apart(s.workers[v], s.workers[w]))
  }

  ghost predicate Inv(c: Config, s: State) {
    && c.chunk > 0
    && ChainOk(c.rules, s.history) && PointerOk(s) && StoreOk(s) && IndexTrue(s.history, s.index)
    && WorkersOk(c, s)
  }

  lemma StartInv(c: Config)
    requires c.chunk > 0
    ensures Inv(c, START)
  {
    EmptyIsWhole();
  }

  // ---- One worker changes, nothing else ----

  lemma WorkerIs(c: Config, s: State, w: nat)
    requires WorkersOk(c, s)
    ensures WorkerOk(c.rules, s.history, s.store, WorkerAt(s, w)) && Synced(s, WorkerAt(s, w))
  {
    hide PreparedOk, RebuildingOk, LandedOk, ParentOk, HandleOk, IndexTrue;
  }

  lemma PutWorker(c: Config, s: State, w: nat, worker: Worker)
    requires WorkersOk(c, s) && WorkerOk(c.rules, s.history, s.store, worker) && Synced(s, worker)
    requires forall v :: v in s.workers && v != w ==> Apart(s.workers[v], worker) && Apart(worker, s.workers[v])
    ensures WorkersOk(c, Put(s, w, worker))
  {
    hide WorkerOk, Apart;
    var after := Put(s, w, worker);
    forall v | v in after.workers ensures Synced(after, after.workers[v]) {
      if v != w { assert Synced(s, s.workers[v]); }
    }
  }

  /** A worker that keeps its handle's epoch, or drops it, stays apart. */
  lemma StaysApart(c: Config, s: State, w: nat, worker: Worker)
    requires WorkersOk(c, s)
    requires var before := WorkerAt(s, w);
             worker.handle.Some? ==>
               before.handle.Some? && worker.handle.value.epoch == before.handle.value.epoch
    ensures forall v :: v in s.workers && v != w ==> Apart(s.workers[v], worker) && Apart(worker, s.workers[v])
  {
    hide WorkerOk, Synced;
    forall v | v in s.workers && v != w ensures Apart(s.workers[v], worker) && Apart(worker, s.workers[v]) {
      if w in s.workers {
        assert Apart(s.workers[v], s.workers[w]) && Apart(s.workers[w], s.workers[v]);
      }
    }
  }

  // ---- The chain grows ----

  lemma AtGrows(history: seq<Commit>, commit: Commit, i: nat)
    requires i <= |history|
    ensures At(history + [commit], i) == At(history, i) && PathAt(history + [commit], i) == PathAt(history, i)
  {
  }

  lemma RightGrows(history: seq<Commit>, commit: Commit, x: Index)
    ensures Right(history, x) ==> Right(history + [commit], x)
    ensures IndexTrue(history, x) ==> IndexTrue(history + [commit], x)
  {
    hide KeyRows;
    if x.mark.version <= |history| {
      AtGrows(history, commit, x.mark.version);
    }
  }

  lemma ParentGrows(history: seq<Commit>, commit: Commit, p: Parent)
    requires ParentOk(history, p)
    ensures ParentOk(history + [commit], p)
  {
    AtGrows(history, commit, p.manifest.version);
  }

  lemma HandleGrows(history: seq<Commit>, commit: Commit, h: Handle)
    requires HandleOk(history, h)
    ensures HandleOk(history + [commit], h)
  {
    hide KeyRows;
    RightGrows(history, commit, h.view);
    AtGrows(history, commit, h.mark.version);
  }

  /** A commit leaves every worker as it should be. */
  lemma WorkerGrows(rules: Rules, history: seq<Commit>, store: Store, commit: Commit, worker: Worker)
    requires WorkerOk(rules, history, store, worker)
    ensures WorkerOk(rules, history + [commit], store, worker)
  {
    hide Follows, KeyRows, Right, IndexTrue, ParentOk, HandleOk, ApplyDelta, Completes, Ends;
    if worker.parent.Some? { ParentGrows(history, commit, worker.parent.value); }
    if worker.handle.Some? {
      RightGrows(history, commit, worker.handle.value.view);
      if !worker.phase.Opened? && !worker.phase.Rebuilding? { HandleGrows(history, commit, worker.handle.value); }
    }
  }

  /** Storing a manifest at a new path leaves every worker as it should be. */
  lemma WorkerStored(rules: Rules, history: seq<Commit>, store: Store, path: Path, m: Manifest, worker: Worker)
    requires WorkerOk(rules, history, store, worker) && path !in store
    ensures WorkerOk(rules, history, store[path := m], worker)
  {
    hide PreparedOk, RebuildingOk, LandedOk, ParentOk, HandleOk, IndexTrue;
  }

  // ---- Steps that change one worker ----

  /** `worker` may replace what `w` is: same handle epoch or none. */
  ghost predicate Tame(s: State, w: nat, worker: Worker) {
    var before := WorkerAt(s, w);
    worker.handle.Some? ==> before.handle.Some? && worker.handle.value.epoch == before.handle.value.epoch
  }

  lemma OneWorker(c: Config, s: State, w: nat, worker: Worker)
    requires Inv(c, s) && Tame(s, w, worker) && WorkerOk(c.rules, s.history, s.store, worker) && Synced(s, worker)
    ensures Inv(c, Put(s, w, worker))
  {
    hide WorkerOk, ChainOk, IndexTrue, StoreHolds, StoreDescends;
    StaysApart(c, s, w, worker);
    PutWorker(c, s, w, worker);
    hide WorkersOk;
  }

  lemma LoadKeeps(c: Config, s: State, step: Step)
    requires Inv(c, s) && step.Load? && Enabled(c, s, step)
    ensures Inv(c, Do(c, s, step))
  {
    hide ChainOk, StoreDescends, StoreHolds, HandleOk, IndexTrue, Whole, WorkerOk;
    WorkerIs(c, s, step.w);
    VersionAt(c.rules, s.history, step.version);
    if step.version > 0 { InStore(s.store, s.history, step.version - 1); }
    var worker := WorkerAt(s, step.w);
    var parent := Parent(PathAt(s.history, step.version), At(s.history, step.version));
    LoadedOk(c.rules, s.history, s.store, worker, parent);
    hide Inv, WorkersOk, ParentOk;
    OneWorker(c, s, step.w, worker.(parent := Some(parent)));
  }

  lemma LoadedOk(rules: Rules, history: seq<Commit>, store: Store, worker: Worker, parent: Parent)
    requires WorkerOk(rules, history, store, worker) && worker.phase.Idle? && ParentOk(history, parent)
    ensures WorkerOk(rules, history, store, worker.(parent := Some(parent)))
  {
    hide HandleOk, ParentOk;
  }

  lemma LeaveKeeps(c: Config, s: State, step: Step)
    requires Inv(c, s) && Enabled(c, s, step)
    requires || step.Crash? || step.Abandon? || step.DropHandle? || step.Conflict?
             || (step.WritePk? && step.ending.NotWritten?)
    ensures Inv(c, Do(c, s, step))
  {
    WorkerIs(c, s, step.w);
    hide Inv, WorkersOk, HandleOk, ParentOk, Right;
    var worker := WorkerAt(s, step.w);
    var after := WorkerAt(Do(c, s, step), step.w);
    OneWorker(c, s, step.w, after);
  }

  lemma KeepKeeps(c: Config, s: State, step: Step)
    requires Inv(c, s) && step.Keep? && Enabled(c, s, step)
    ensures Inv(c, Do(c, s, step))
  {
    WorkerIs(c, s, step.w);
    var worker := WorkerAt(s, step.w);
    var h := worker.handle.value;
    NotRebuilding(c, s, worker.parent.value);
    hide Inv, WorkersOk, ParentOk, KeyRows;
    OneWorker(c, s, step.w, worker.(handle := Some(h.(mark := h.view.mark)), phase := Idle));
  }

  /** No manifest of the chain has the marker's offsets. */
  lemma NotRebuilding(c: Config, s: State, p: Parent)
    requires Inv(c, s)
    ensures ParentOk(s.history, p) ==> p.manifest.applied != REBUILDING.applied
  {
    if ParentOk(s.history, p) {
      VersionAt(c.rules, s.history, p.manifest.version);
      hide Inv, Whole;
      assert U32_MAX in REBUILDING.applied;
    }
  }

  /** A worker that learns its CAS landed. */
  lemma LandedWorker(rules: Rules, history: seq<Commit>, store: Store, worker: Worker)
    requires ChainOk(rules, history) && StoreHolds(store, history) && WorkerOk(rules, history, store, worker)
    requires worker.phase.Prepared? && worker.parent.value.manifest.version < |history|
    requires history[worker.parent.value.manifest.version].path == worker.phase.path
    ensures WorkerOk(rules, history, store, AfterCas(worker))
  {
    hide ChainOk, StoreHolds, Follows, KeyRows, HandleOk, ApplyDelta, Whole, IndexTrue;
    var p, m := worker.parent.value, worker.phase.manifest;
    InStore(store, history, p.manifest.version);
    assert m == At(history, p.manifest.version + 1);
    VersionAt(rules, history, p.manifest.version + 1);
    FollowsKeys(rules, p.manifest, m, worker.phase.batch);
  }

  lemma InStore(store: Store, history: seq<Commit>, i: nat)
    requires StoreHolds(store, history) && i < |history|
    ensures history[i].path in store && store[history[i].path] == history[i].manifest
  {
  }

  lemma RecogniseKeeps(c: Config, s: State, step: Step)
    requires Inv(c, s) && step.Recognise? && Enabled(c, s, step)
    ensures Inv(c, Do(c, s, step))
  {
    hide WorkerOk, ChainOk, StoreHolds, StoreDescends, IndexTrue, Follows;
    WorkerIs(c, s, step.w);
    assert PointerOk(s) && StoreHolds(s.store, s.history) && ChainOk(c.rules, s.history);
    hide Inv, WorkersOk;
    var worker := WorkerAt(s, step.w);
    LandedWorker(c.rules, s.history, s.store, worker);
    OneWorker(c, s, step.w, AfterCas(worker));
  }

  // ---- Steps that write the index ----

  lemma IndexWritten(c: Config, s: State, w: nat, index: Index, worker: Worker)
    requires Inv(c, s) && Unfenced(s, WorkerAt(s, w)) && IndexTrue(s.history, index)
    requires WorkerOk(c.rules, s.history, s.store, worker) && Tame(s, w, worker)
    requires worker.handle.Some? ==> worker.handle.value.view == index
    ensures Inv(c, Put(s.(index := index), w, worker))
  {
    hide WorkerOk, ChainOk, IndexTrue, StoreHolds, StoreDescends;
    var mid := s.(index := index, workers := s.workers - {w});
    var after := Put(s.(index := index), w, worker);
    StaysApart(c, s, w, worker);
    forall v | v in mid.workers ensures Synced(mid, mid.workers[v]) {
      assert Synced(s, s.workers[v]) && Apart(s.workers[v], s.workers[w]);
    }
    assert WorkersOk(c, mid);
    assert Synced(mid, worker);
    PutWorker(c, mid, w, worker);
    assert after == Put(mid, w, worker);
  }

  lemma CatchKeeps(c: Config, s: State, step: Step)
    requires Inv(c, s) && step.Catch? && Enabled(c, s, step)
    ensures Inv(c, Do(c, s, step))
  {
    WorkerIs(c, s, step.w);
    var worker := WorkerAt(s, step.w);
    var p, h := worker.parent.value, worker.handle.value;
    assert h.view == s.index;
    var current := h.view.mark;
    var changes := RepairOf(s, p, current, step.available).changes;
    assert Right(s.history, h.view) && current.version <= p.manifest.version;
    ReplayIsRebuild(c.rules, s.history, s.store, step.available, current.version, p.manifest.version, h.view.keys);
    var after := Index(ApplyDelta(s.index.keys, changes), Target(p));
    assert Right(s.history, after);
    hide Inv, WorkersOk, KeyRows, ApplyDelta, ReplayFrom, StoreDescends, RepairOf;
    IndexWritten(
      c, s, step.w, after,
      worker.(handle := if step.lost then None else Some(h.(view := after, mark := Target(p))), phase := Idle));
  }

  lemma TargetRight(history: seq<Commit>, p: Parent, index: Index)
    requires ParentOk(history, p) && index == Index(KeyRows(p.manifest.lance.rows), Target(p))
    ensures Right(history, index)
  {
    hide KeyRows;
  }

  lemma StartRebuildKeeps(c: Config, s: State, step: Step)
    requires Inv(c, s) && step.StartRebuild? && Enabled(c, s, step)
    ensures Inv(c, Do(c, s, step))
  {
    WorkerIs(c, s, step.w);
    var worker := WorkerAt(s, step.w);
    var p, h := worker.parent.value, worker.handle.value;
    var live := KeyRows(p.manifest.lance.rows);
    assert h.view == s.index && ParentOk(s.history, p);
    PlanCompletes(h.view, live, Target(p), step.entries);
    PlanEnds(h.view, live, Target(p), step.entries);
    MarkerWrite(h.view);
    hide Inv, WorkersOk, KeyRows, RebuildPlan, RepairOf, StoreDescends, ParentOk, WriteAll, Right, Ends;
    if |step.entries| > c.chunk {
      IndexWritten(
        c, s, step.w, WriteAll(s.index, [Mark(REBUILDING)]),
        if step.lost then worker.(handle := None, phase := Idle)
        else worker.(handle := Some(Rewritten(h, [Mark(REBUILDING)])), phase := Rebuilding(step.entries, Target(p))));
    } else {
      var after := WriteAll(s.index, step.entries);
      TargetRight(s.history, p, after);
      FreshHandle(s.history, p, Rewritten(h, step.entries).(mark := Target(p)));
      IndexWritten(
        c, s, step.w, after,
        if step.lost then worker.(handle := None, phase := Idle)
        else worker.(handle := Some(Rewritten(h, step.entries).(mark := Target(p))), phase := Idle));
    }
  }

  lemma FreshHandle(history: seq<Commit>, p: Parent, h: Handle)
    requires ParentOk(history, p) && h.view == Index(KeyRows(p.manifest.lance.rows), Target(p)) && h.mark == Target(p)
    ensures HandleOk(history, h)
  {
    hide KeyRows;
  }

  lemma MarkerWrite(index: Index)
    ensures WriteAll(index, [Mark(REBUILDING)]) == index.(mark := REBUILDING)
  {
    assert [Mark(REBUILDING)][..0] == [];
  }

  lemma PlanEnds(index: Index, live: KeyMap, target: Watermark, entries: seq<Entry>)
    requires RebuildPlan(index, live, target, entries)
    ensures Ends(entries, target)
  {
    var body := entries[..|entries| - 1];
    forall i | 0 <= i < |entries| - 1 ensures entries[i].Change? {
      assert Lists1(body[i], RebuildDelta(index.keys, live));
    }
  }

  lemma RebuildChunkKeeps(c: Config, s: State, step: Step)
    requires Inv(c, s) && step.RebuildChunk? && Enabled(c, s, step)
    ensures Inv(c, Do(c, s, step))
  {
    WorkerIs(c, s, step.w);
    var worker := WorkerAt(s, step.w);
    var p, h, rest, target := worker.parent.value, worker.handle.value, worker.phase.rest, worker.phase.target;
    var live := KeyRows(p.manifest.lance.rows);
    var n := if |rest| < c.chunk then |rest| else c.chunk;
    assert h.view == s.index && ParentOk(s.history, p) && Ends(rest, target) && n > 0;
    CompletesOn(h.view, rest, live, target, n);
    WritePart(h.view, rest, n, live, target);
    var index := WriteAll(s.index, rest[..n]);
    var h' := Rewritten(h, rest[..n]);
    hide Inv, WorkersOk, KeyRows, ParentOk, WriteAll, Right, Ends, Completes;
    if n < |rest| {
      IndexWritten(
        c, s, step.w, index,
        if step.lost then worker.(handle := None, phase := Idle)
        else worker.(handle := Some(h'), phase := Rebuilding(rest[n..], target)));
    } else {
      TargetRight(s.history, p, index);
      FreshHandle(s.history, p, h'.(mark := target));
      IndexWritten(
        c, s, step.w, index,
        if step.lost then worker.(handle := None, phase := Idle)
        else worker.(handle := Some(h'.(mark := target)), phase := Idle));
    }
  }

  lemma WritePkKeeps(c: Config, s: State, step: Step)
    requires Inv(c, s) && step.WritePk? && !step.ending.NotWritten? && Enabled(c, s, step)
    ensures Inv(c, Do(c, s, step))
  {
    WorkerIs(c, s, step.w);
    var worker := WorkerAt(s, step.w);
    var p, h := worker.parent.value, worker.handle.value;
    assert h.view == s.index && ParentOk(s.history, p);
    var after := Index(ApplyDelta(s.index.keys, worker.phase.delta), worker.phase.target);
    TargetRight(s.history, p, after);
    hide Inv, WorkersOk, KeyRows, ApplyDelta;
    IndexWritten(
      c, s, step.w, after,
      worker.(
        phase := Idle,
        handle := if step.ending.HandleLost? then None
                  else if step.ending.Cancelled? then Some(h.(view := after))
                  else Some(h.(view := after, mark := worker.phase.target))));
  }

  // ---- Opening a handle ----

  lemma OpenKeeps(c: Config, s: State, step: Step)
    requires Inv(c, s) && step.Open? && Enabled(c, s, step)
    ensures Inv(c, Do(c, s, step))
  {
    hide ChainOk, StoreHolds, StoreDescends, WorkersOk, IndexTrue;
    OpenWorkers(c, s, step.w);
  }

  lemma OpenWorkers(c: Config, s: State, w: nat)
    requires WorkersOk(c, s) && IndexTrue(s.history, s.index) && WorkerAt(s, w).phase.Idle?
             && WorkerAt(s, w).parent.Some?
    ensures WorkersOk(
              c,
              Put(s.(epoch := s.epoch + 1), w,
                  WorkerAt(s, w).(handle := Some(Handle(s.epoch + 1, s.index, NO_MARK)), phase := Opened)))
  {
    hide WorkerOk, IndexTrue;
    WorkerIs(c, s, w);
    var holder := WorkerAt(s, w).(handle := Some(Handle(s.epoch + 1, s.index, NO_MARK)), phase := Opened);
    HolderOk(c.rules, s.history, s.store, WorkerAt(s, w), holder.handle.value);
    var mid := s.(epoch := s.epoch + 1, workers := s.workers - {w});
    forall v | v in mid.workers
      ensures Synced(mid, mid.workers[v]) && Apart(mid.workers[v], holder) && Apart(holder, mid.workers[v])
    {
      assert Synced(s, s.workers[v]);
    }
    assert WorkersOk(c, mid);
    PutWorker(c, mid, w, holder);
    assert Put(s.(epoch := s.epoch + 1), w, holder) == Put(mid, w, holder);
  }

  lemma HolderOk(rules: Rules, history: seq<Commit>, store: Store, worker: Worker, h: Handle)
    requires WorkerOk(rules, history, store, worker) && worker.phase.Idle? && worker.parent.Some?
    requires IndexTrue(history, h.view)
    ensures WorkerOk(rules, history, store, worker.(handle := Some(h), phase := Opened))
  {
    hide ParentOk, HandleOk, IndexTrue;
  }

  // ---- Preparing a manifest ----

  /** A handle whose remembered offsets are the live manifest's reads the live key map. */
  lemma HandleReads(rules: Rules, history: seq<Commit>, h: Handle, p: Parent)
    requires ChainOk(rules, history) && HandleOk(history, h) && ParentOk(history, p)
    requires h.mark.applied == p.manifest.applied && p.manifest.version == |history|
    ensures Reads(h, p.manifest)
  {
    hide ChainOk, KeyRows, AppliedLe;
    var k, n := h.mark.version, h.view.mark.version;
    AppliedMonotone(rules, history, k, n);
    AppliedMonotone(rules, history, n, |history|);
    AppliedAntisymmetric(At(history, n).applied, At(history, |history|).applied);
    AppliedDecides(rules, history, n, |history|);
  }

  lemma PreparedKeeps(c: Config, s: State, w: nat, path: Path, m: Manifest, batch: Batch)
    requires Inv(c, s) && path !in s.store && WorkerAt(s, w).phase.Idle? && WorkerAt(s, w).parent.Some?
    requires Descends(m) && PreparedOk(c.rules, s.history, WorkerAt(s, w).(phase := Prepared(path, m, batch)))
    ensures Inv(c, Put(s.(store := s.store[path := m]), w, WorkerAt(s, w).(phase := Prepared(path, m, batch))))
  {
    hide ChainOk, WorkersOk, PreparedOk, StoreHolds, StoreDescends, IndexTrue;
    PreparedStore(s, path, m);
    PreparedWorkers(c, s, w, path, m, batch);
  }

  lemma PreparedStore(s: State, path: Path, m: Manifest)
    requires StoreOk(s) && path !in s.store && Descends(m)
    ensures StoreHolds(s.store[path := m], s.history) && StoreDescends(s.store[path := m])
  {
    hide Descends;
  }

  lemma PreparedWorkers(c: Config, s: State, w: nat, path: Path, m: Manifest, batch: Batch)
    requires WorkersOk(c, s) && path !in s.store && WorkerAt(s, w).phase.Idle? && WorkerAt(s, w).parent.Some?
    requires PreparedOk(c.rules, s.history, WorkerAt(s, w).(phase := Prepared(path, m, batch)))
    ensures WorkersOk(c, Put(s.(store := s.store[path := m]), w, WorkerAt(s, w).(phase := Prepared(path, m, batch))))
  {
    hide WorkerOk, PreparedOk;
    WorkerIs(c, s, w);
    var worker := WorkerAt(s, w).(phase := Prepared(path, m, batch));
    var store := s.store[path := m];
    PreparedWorker(c.rules, s.history, s.store, WorkerAt(s, w), path, m, batch);
    var mid := s.(store := store, workers := s.workers - {w});
    forall v | v in mid.workers
      ensures WorkerOk(c.rules, s.history, store, mid.workers[v]) && Synced(mid, mid.workers[v])
      ensures Apart(mid.workers[v], worker) && Apart(worker, mid.workers[v])
    {
      OtherWorker(c, s, w, v);
      WorkerStored(c.rules, s.history, s.store, path, m, s.workers[v]);
    }
    assert WorkersOk(c, mid) && Synced(mid, worker);
    PutWorker(c, mid, w, worker);
    assert Put(s.(store := store), w, worker) == Put(mid, w, worker);
  }

  lemma PreparedWorker(
    rules: Rules, history: seq<Commit>, store: Store, worker: Worker, path: Path, m: Manifest, batch: Batch)
    requires WorkerOk(rules, history, store, worker) && worker.phase.Idle? && worker.parent.Some?
    requires PreparedOk(rules, history, worker.(phase := Prepared(path, m, batch)))
    ensures WorkerOk(rules, history, store[path := m], worker.(phase := Prepared(path, m, batch)))
  {
    hide ParentOk, HandleOk, PreparedOk;
  }

  lemma OtherWorker(c: Config, s: State, w: nat, v: nat)
    requires WorkersOk(c, s) && v in s.workers && v != w
    ensures WorkerOk(c.rules, s.history, s.store, s.workers[v]) && Synced(s, s.workers[v])
    ensures s.workers[v].handle.Some? && WorkerAt(s, w).handle.Some? ==>
              s.workers[v].handle.value.epoch != WorkerAt(s, w).handle.value.epoch
  {
    hide ParentOk, HandleOk, IndexTrue, PreparedOk, RebuildingOk, LandedOk;
    if w in s.workers { assert Apart(s.workers[v], s.workers[w]); }
  }

  lemma NewPathDoomed(s: State, v: nat, path: Path)
    requires StoreHolds(s.store, s.history) && path !in s.store && v < |s.history|
    ensures Doomed(s.history, v, path)
  {
  }

  lemma PrepareLinkKeeps(c: Config, s: State, step: Step)
    requires Inv(c, s) && step.PrepareLink? && Enabled(c, s, step)
    ensures Inv(c, Do(c, s, step))
  {
    hide Applies, LinkManifest, BatchOk, ChainOk, StoreHolds, StoreDescends, IndexTrue, Right, KeyRows, Whole, Follows;
    WorkerIs(c, s, step.w);
    var worker := WorkerAt(s, step.w);
    var p, h := worker.parent.value, worker.handle.value;
    var m := LinkManifest(
      p.manifest, p.path, step.started, step.batch, step.resolution, step.rows, step.objects, step.indexes);
    LinkShape(p.manifest, p.path, step.started, step.batch, step.resolution, step.rows, step.objects, step.indexes);
    VersionAt(c.rules, s.history, p.manifest.version);
    if p.manifest.version < |s.history| {
      NewPathDoomed(s, p.manifest.version, step.path);
    } else {
      HandleReads(c.rules, s.history, h, p);
      LinkFollows(
        c.rules, p.manifest, h.view.keys, step.batch, step.resolution, step.rows, p.path, step.started,
        step.objects, step.indexes);
    }
    hide Inv;
    PreparedKeeps(c, s, step.w, step.path, m, step.batch);
  }

  lemma LinkShape(
    parent: Manifest, parentPath: Option<Path>, started: nat, batch: Batch, r: Resolution, w: NewRows,
    objects: NewObjects, indexes: set<string>)
    ensures var m := LinkManifest(parent, parentPath, started, batch, r, w, objects, indexes);
            Descends(m) && m.parent == parentPath && m.version == parent.version + 1
  {
    hide LinkSplits, DeltaOf, Skipped, Replaced;
  }

  lemma PrepareIndexKeeps(c: Config, s: State, step: Step)
    requires Inv(c, s) && step.PrepareIndex? && Enabled(c, s, step)
    ensures Inv(c, Do(c, s, step))
  {
    hide ChainOk, StoreHolds, StoreDescends, IndexTrue, Right, KeyRows, Whole, Follows;
    WorkerIs(c, s, step.w);
    var p := WorkerAt(s, step.w).parent.value;
    VersionAt(c.rules, s.history, p.manifest.version);
    IndexFollows(c.rules, p.manifest, p.path, step.started, step.index, step.removed, step.files, step.kind);
    hide Inv;
    PreparedKeeps(
      c, s, step.w, step.path,
      IndexManifest(p.manifest, p.path, step.started, step.index, step.removed, step.files, step.kind), NOTHING);
  }

  // ---- The CAS ----

  /** The worker whose CAS lands, before it knows. */
  lemma WorkerCommits(rules: Rules, history: seq<Commit>, store: Store, worker: Worker)
    requires WorkerOk(rules, history, store, worker) && (worker.phase.Prepared? || worker.phase.Sent?)
    requires worker.parent.value.manifest.version == |history|
    ensures var commit := Commit(worker.phase.path, worker.phase.manifest, worker.phase.batch);
            && Follows(rules, At(history, |history|), commit.manifest, commit.batch)
            && commit.manifest.parent == PathAt(history, |history|)
            && commit.path in store && store[commit.path] == commit.manifest
            && WorkerOk(rules, history + [commit], store, worker)
  {
    hide Follows, KeyRows, Right, IndexTrue, HandleOk;
    var commit := Commit(worker.phase.path, worker.phase.manifest, worker.phase.batch);
    ParentGrows(history, commit, worker.parent.value);
    if worker.handle.Some? { HandleGrows(history, commit, worker.handle.value); }
  }

  lemma OthersGrow(c: Config, s: State, w: nat, commit: Commit)
    requires WorkersOk(c, s)
    ensures WorkersOk(c, s.(workers := s.workers - {w}, history := s.history + [commit]))
  {
    hide WorkerOk;
    var mid := s.(workers := s.workers - {w}, history := s.history + [commit]);
    forall v | v in mid.workers
      ensures WorkerOk(c.rules, mid.history, mid.store, mid.workers[v]) && Synced(mid, mid.workers[v])
    {
      assert Synced(s, s.workers[v]);
      WorkerGrows(c.rules, s.history, s.store, commit, s.workers[v]);
    }
  }

  lemma StoreGrows(s: State, commit: Commit)
    requires StoreOk(s) && commit.path in s.store && s.store[commit.path] == commit.manifest
    ensures StoreHolds(s.store, s.history + [commit])
  {
  }

  lemma CasKeeps(c: Config, s: State, step: Step)
    requires Inv(c, s) && (step.Cas? || step.LateCas?) && Enabled(c, s, step)
    ensures Inv(c, Do(c, s, step))
  {
    hide WorkerOk, ChainOk, StoreHolds, StoreDescends, IndexTrue, Follows, At, PathAt, WorkersOk;
    WorkerIs(c, s, step.w);
    var worker := WorkerAt(s, step.w);
    var commit := Commit(worker.phase.path, worker.phase.manifest, worker.phase.batch);
    WorkerCommits(c.rules, s.history, s.store, worker);
    ChainGrows(c.rules, s.history, commit);
    StoreGrows(s, commit);
    RightGrows(s.history, commit, s.index);
    if step.LateCas? {
      NobodyOk(c.rules, s.history + [commit], s.store);
      CasWorkers(c, s, step.w, commit, Worker(None, None, Idle));
    } else if step.acked {
      CommittedPath(s.history, commit);
      LandedWorker(c.rules, s.history + [commit], s.store, worker);
      CasWorkers(c, s, step.w, commit, AfterCas(worker));
    } else {
      CasWorkers(c, s, step.w, commit, worker);
    }
  }

  lemma NobodyOk(rules: Rules, history: seq<Commit>, store: Store)
    ensures WorkerOk(rules, history, store, Worker(None, None, Idle))
  {
  }

  lemma CommittedPath(history: seq<Commit>, commit: Commit)
    ensures (history + [commit])[|history|].path == commit.path
  {
  }

  /** The workers after a CAS landed and `w` became `after`. */
  lemma CasWorkers(c: Config, s: State, w: nat, commit: Commit, after: Worker)
    requires WorkersOk(c, s) && Tame(s, w, after)
    requires after.handle.Some? ==> after.handle == WorkerAt(s, w).handle
    requires WorkerOk(c.rules, s.history + [commit], s.store, after)
    ensures WorkersOk(
              c,
              Put(s.(pointer := Some(Pointer(|s.history| + 1, commit.path)), history := s.history + [commit]),
                  w, after))
  {
    hide WorkerOk, WorkersOk;
    var mid := s.(workers := s.workers - {w}, history := s.history + [commit]);
    WorkerIs(c, s, w);
    OthersGrow(c, s, w, commit);
    StaysApart(c, s, w, after);
    PutWorker(c, mid, w, after);
    var pointer := Some(Pointer(|s.history| + 1, commit.path));
    PointerIsFrame(c, Put(mid, w, after), pointer);
    assert Put(mid, w, after).(pointer := pointer) == Put(s.(pointer := pointer, history := mid.history), w, after);
  }

  /** A CAS on its way is as good as the worker that sent it. */
  lemma SendKeeps(c: Config, s: State, step: Step)
    requires Inv(c, s) && step.Send? && Enabled(c, s, step)
    ensures Inv(c, Do(c, s, step))
  {
    hide WorkerOk, ChainOk, StoreOk, IndexTrue;
    WorkerIs(c, s, step.w);
    var worker := WorkerAt(s, step.w);
    SentOk(c.rules, s.history, s.store, worker);
    var command := Worker(worker.parent, None, Sent(worker.phase.path, worker.phase.manifest, worker.phase.batch));
    hide Inv, WorkersOk;
    OneWorker(c, s, step.command, command);
  }

  lemma SentOk(rules: Rules, history: seq<Commit>, store: Store, worker: Worker)
    requires WorkerOk(rules, history, store, worker) && worker.phase.Prepared?
    ensures WorkerOk(
              rules, history, store,
              Worker(worker.parent, None, Sent(worker.phase.path, worker.phase.manifest, worker.phase.batch)))
  {
    hide Follows, HandleOk, ParentOk, Reads;
  }

  lemma PointerIsFrame(c: Config, s: State, pointer: Option<Pointer>)
    requires WorkersOk(c, s)
    ensures WorkersOk(c, s.(pointer := pointer))
  {
    hide WorkerOk, Apart;
    var after := s.(pointer := pointer);
    forall w | w in after.workers ensures Synced(after, after.workers[w]) {
      assert Synced(s, s.workers[w]);
    }
  }

  // ---- Every run ----

  /** Every step keeps the invariant. */
  lemma StepKeeps(c: Config, s: State, step: Step)
    requires Inv(c, s) && Enabled(c, s, step)
    ensures Inv(c, Do(c, s, step))
  {
    hide Inv, Enabled, Do;
    match step
    case Load(_, _) => LoadKeeps(c, s, step);
    case Crash(_) => LeaveKeeps(c, s, step);
    case Abandon(_) => LeaveKeeps(c, s, step);
    case DropHandle(_) => LeaveKeeps(c, s, step);
    case Open(_) => OpenKeeps(c, s, step);
    case Keep(_) => KeepKeeps(c, s, step);
    case Catch(_, _, _) => CatchKeeps(c, s, step);
    case StartRebuild(_, _, _, _) => StartRebuildKeeps(c, s, step);
    case RebuildChunk(_, _) => RebuildChunkKeeps(c, s, step);
    case PrepareLink(_, _, _, _, _, _, _, _) => PrepareLinkKeeps(c, s, step);
    case PrepareIndex(_, _, _, _, _, _, _) => PrepareIndexKeeps(c, s, step);
    case Cas(_, _) => CasKeeps(c, s, step);
    case Send(_, _) => SendKeeps(c, s, step);
    case LateCas(_) => CasKeeps(c, s, step);
    case Recognise(_) => RecogniseKeeps(c, s, step);
    case Conflict(_) => LeaveKeeps(c, s, step);
    case WritePk(_, ending) => if ending.NotWritten? { LeaveKeeps(c, s, step); } else { WritePkKeeps(c, s, step); }
  }

  lemma {:induction false} RunKeeps(c: Config, s: State, steps: seq<Step>)
    requires Inv(c, s) && IsRun(c, s, steps)
    ensures Inv(c, Reach(c, s, steps))
    decreases |steps|
  {
    hide Inv, Enabled, Do;
    if steps != [] {
      StepKeeps(c, s, steps[0]);
      RunKeeps(c, Do(c, s, steps[0]), steps[1..]);
    }
  }
}
