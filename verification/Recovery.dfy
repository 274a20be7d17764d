/** From every state the protocol reaches, one worker alone can bring the PK index to the live
    manifest and commit the next batch: no crash, lost answer or half-done rebuild wedges a
    collection. */
module Recovery {
  import opened Prelude
  import opened Splits
  import opened Resolve
  import opened Offsets
  import opened RowSets
  import opened Commits
  import opened History
  import opened PkDeltas
  import opened PkIndexes
  import opened Protocol
  import opened ProtocolSafety
  import opened ProtocolTheorems
  import opened CommitTarget

  // ---- Runs ----

  lemma {:induction false} RunConcat(c: Config, s: State, a: seq<Step>, b: seq<Step>)
    requires IsRun(c, s, a) && IsRun(c, Reach(c, s, a), b)
    ensures IsRun(c, s, a + b) && Reach(c, s, a + b) == Reach(c, Reach(c, s, a), b)
    decreases |a|
  {
    hide Enabled, Do;
    if a == [] {
      assert a + b == b;
    } else {
      RunConcat(c, Do(c, s, a[0]), a[1..], b);
      assert (a + b)[0] == a[0] && (a + b)[1..] == a[1..] + b;
    }
  }

  lemma OneStep(c: Config, s: State, step: Step)
    requires Enabled(c, s, step)
    ensures IsRun(c, s, [step]) && Reach(c, s, [step]) == Do(c, s, step)
  {
    hide Enabled, Do;
    assert [step][1..] == [];
    assert IsRun(c, Do(c, s, step), []);
  }

  /** Every repair of the run finds exactly the manifests `available`. */
  ghost predicate Finds(steps: seq<Step>, available: set<Path>) {
    forall i :: 0 <= i < |steps| ==> StepFinds(steps[i], available)
  }

  ghost predicate StepFinds(step: Step, available: set<Path>) {
    (step.Catch? || step.StartRebuild?) ==> step.available == available
  }

  lemma FindsConcat(a: seq<Step>, b: seq<Step>, available: set<Path>)
    requires Finds(a, available) && Finds(b, available)
    ensures Finds(a + b, available)
  {
    hide StepFinds;
  }

  // ---- One worker recovers ----

  /** Nothing was stored or committed. */
  ghost predicate SameCommits(s: State, t: State) {
    t.history == s.history && t.store == s.store
  }

  /** Worker `w` can commit on the live manifest: it remembers it, and no other handle has been opened
      since its own, which reads exactly the live key map. */
  ghost predicate Ready(s: State, w: nat) {
    var worker := WorkerAt(s, w);
    && worker.phase.Idle? && worker.parent.Some? && Unfenced(s, worker)
    && worker.parent.value.manifest.version == LiveVersion(s)
    && worker.handle.value.mark.applied == worker.parent.value.manifest.applied
    && worker.handle.value.view.keys == KeyRows(worker.parent.value.manifest.lance.rows)
  }

  /** A worker that has just opened a handle on the live manifest. */
  ghost predicate Fresh(s: State, w: nat) {
    var worker := WorkerAt(s, w);
    && worker.phase.Opened? && worker.parent.Some? && Unfenced(s, worker)
    && worker.parent.value.manifest.version == LiveVersion(s)
  }

  lemma StartOver(c: Config, s: State, w: nat, available: set<Path>) returns (steps: seq<Step>)
    requires Inv(c, s)
    ensures IsRun(c, s, steps) && Inv(c, Reach(c, s, steps)) && Finds(steps, available)
    ensures SameCommits(s, Reach(c, s, steps)) && Fresh(Reach(c, s, steps), w)
  {
    hide Inv, IsRun, Reach, ChainOk, StoreHolds, StoreDescends;
    var crash := Crash(w);
    OneStep(c, s, crash);
    StepKeeps(c, s, crash);
    var s1 := Do(c, s, crash);
    var load := Load(w, |s1.history|);
    LoadEnabled(c, s1, w);
    OneStep(c, s1, load);
    StepKeeps(c, s1, load);
    var s2 := Do(c, s1, load);
    LoadedLive(c, s1, w);
    var open := Open(w);
    OneStep(c, s2, open);
    StepKeeps(c, s2, open);
    RunConcat(c, s, [crash], [load]);
    RunConcat(c, s, [crash] + [load], [open]);
    steps := [crash] + [load] + [open];
  }

  lemma LoadEnabled(c: Config, s: State, w: nat)
    requires Inv(c, s) && WorkerAt(s, w) == Worker(None, None, Idle)
    ensures Enabled(c, s, Load(w, |s.history|))
  {
    hide ChainOk, WorkersOk, IndexTrue, StoreDescends;
    if s.history != [] { InStore(s.store, s.history, |s.history| - 1); }
  }

  lemma LoadedLive(c: Config, s: State, w: nat)
    requires Inv(c, s) && WorkerAt(s, w) == Worker(None, None, Idle) && Enabled(c, s, Load(w, |s.history|))
    ensures var t := Do(c, s, Load(w, |s.history|));
            var worker := WorkerAt(t, w);
            && worker.phase.Idle? && worker.parent.Some? && worker.handle.None?
            && worker.parent.value.manifest.version == LiveVersion(t) && SameCommits(s, t)
  {
    hide WorkersOk, IndexTrue, StoreDescends, Whole, ChainOk;
    VersionAt(c.rules, s.history, |s.history|);
    if s.history != [] { InStore(s.store, s.history, |s.history| - 1); }
  }

  /** With a handle that remembers the live manifest's offsets, a worker is ready. */
  lemma BecomesReady(c: Config, s: State, w: nat)
    requires Inv(c, s)
    requires var worker := WorkerAt(s, w);
             && worker.phase.Idle? && worker.parent.Some? && Unfenced(s, worker)
             && worker.parent.value.manifest.version == LiveVersion(s)
             && worker.handle.value.mark.applied == worker.parent.value.manifest.applied
    ensures Ready(s, w)
  {
    hide ChainOk, KeyRows, StoreOk, IndexTrue, Right;
    WorkerIs(c, s, w);
    HandleReads(c.rules, s.history, WorkerAt(s, w).handle.value, WorkerAt(s, w).parent.value);
  }

  lemma PlanFor(index: Index, live: KeyMap, target: Watermark) returns (entries: seq<Entry>)
    ensures RebuildPlan(index, live, target, entries)
  {
    hide Lists, RebuildDelta;
    var d := RebuildDelta(index.keys, live);
    var order := KeyOrders.ListKeys(d.Keys);
    EntriesList(d, order);
    var changes := EntriesOf(d, order);
    entries := changes + [Mark(target)];
    assert entries[..|entries| - 1] == changes;
  }

  /** A worker in the middle of a rebuild on the live manifest. */
  ghost predicate Rebuilds(s: State, w: nat) {
    var worker := WorkerAt(s, w);
    && worker.phase.Rebuilding? && worker.parent.Some? && Unfenced(s, worker)
    && worker.parent.value.manifest.version == LiveVersion(s)
  }

  lemma ChunkStep(c: Config, s: State, w: nat)
    requires Inv(c, s) && Rebuilds(s, w)
    ensures Enabled(c, s, RebuildChunk(w, false))
    ensures var t := Do(c, s, RebuildChunk(w, false));
            && SameCommits(s, t)
            && if WorkerAt(t, w).phase.Rebuilding?
               then Rebuilds(t, w) && |WorkerAt(t, w).phase.rest| < |WorkerAt(s, w).phase.rest|
               else Settled(t, w)
  {
    hide ChainOk, StoreOk, IndexTrue, KeyRows, Completes, WriteAll;
    WorkerIs(c, s, w);
  }

  /** The worker is idle on the live manifest with a current handle that remembers its offsets. */
  ghost predicate Settled(s: State, w: nat) {
    var worker := WorkerAt(s, w);
    && worker.phase.Idle? && worker.parent.Some? && Unfenced(s, worker)
    && worker.parent.value.manifest.version == LiveVersion(s)
    && worker.handle.value.mark.applied == worker.parent.value.manifest.applied
  }

  lemma {:induction false} FinishRebuild(c: Config, s: State, w: nat, available: set<Path>) returns (steps: seq<Step>)
    requires Inv(c, s) && Rebuilds(s, w)
    ensures IsRun(c, s, steps) && Inv(c, Reach(c, s, steps)) && Finds(steps, available)
    ensures SameCommits(s, Reach(c, s, steps)) && Settled(Reach(c, s, steps), w)
    decreases |WorkerAt(s, w).phase.rest|
  {
    hide Inv, IsRun, Reach, Enabled, Do, Settled;
    var chunk := RebuildChunk(w, false);
    ChunkStep(c, s, w);
    OneStep(c, s, chunk);
    StepKeeps(c, s, chunk);
    var t := Do(c, s, chunk);
    if WorkerAt(t, w).phase.Rebuilding? {
      var rest := FinishRebuild(c, t, w, available);
      RunConcat(c, s, [chunk], rest);
      FindsConcat([chunk], rest, available);
      steps := [chunk] + rest;
    } else {
      steps := [chunk];
    }
  }

  lemma BeginRebuild(c: Config, s: State, w: nat, available: set<Path>) returns (step: Step)
    requires Inv(c, s) && Fresh(s, w)
    requires var worker := WorkerAt(s, w);
             && StoreDescends(s.store) && Descends(worker.parent.value.manifest)
             && RepairOf(s, worker.parent.value, worker.handle.value.view.mark, available).RebuildAll?
    ensures Enabled(c, s, step) && StepFinds(step, available)
    ensures var t := Do(c, s, step); SameCommits(s, t) && (Rebuilds(t, w) || Settled(t, w))
  {
    hide Inv, KeyRows, RepairOf, StoreDescends, RebuildPlan, WriteAll;
    var worker := WorkerAt(s, w);
    var p := worker.parent.value;
    var entries := PlanFor(worker.handle.value.view, KeyRows(p.manifest.lance.rows), Target(p));
    step := StartRebuild(w, available, entries, false);
  }

  lemma Repairs(c: Config, s: State, w: nat, available: set<Path>) returns (steps: seq<Step>)
    requires Inv(c, s) && Fresh(s, w) && Reachable(c, s)
    ensures IsRun(c, s, steps) && Inv(c, Reach(c, s, steps)) && Finds(steps, available)
    ensures SameCommits(s, Reach(c, s, steps)) && Settled(Reach(c, s, steps), w)
  {
    hide Inv, IsRun, Reach, Reachable, StoreDescends, KeyRows, ApplyDelta, ReplayFrom;
    RepairAlwaysMatches(c, s, w, available);
    var worker := WorkerAt(s, w);
    var p, mark := worker.parent.value, worker.handle.value.view.mark;
    NotAhead(c, s, w);
    var repair := RepairOf(s, p, mark, available);
    if repair.RebuildAll? {
      var step := BeginRebuild(c, s, w, available);
      OneStep(c, s, step);
      StepKeeps(c, s, step);
      hide Enabled, Do;
      if Rebuilds(Do(c, s, step), w) {
        var rest := FinishRebuild(c, Do(c, s, step), w, available);
        RunConcat(c, s, [step], rest);
        FindsConcat([step], rest, available);
        steps := [step] + rest;
      } else {
        steps := [step];
      }
    } else {
      var step := if repair.KeepIndex? then Keep(w) else Catch(w, available, false);
      OneStep(c, s, step);
      StepKeeps(c, s, step);
      steps := [step];
    }
  }

  /** On the live manifest the index is never ahead. */
  lemma NotAhead(c: Config, s: State, w: nat)
    requires Inv(c, s) && Fresh(s, w)
    ensures var mark := WorkerAt(s, w).handle.value.view.mark;
            mark == REBUILDING || mark.version <= WorkerAt(s, w).parent.value.manifest.version
  {
    hide ChainOk, StoreOk, KeyRows;
    WorkerIs(c, s, w);
  }

  lemma ReachableOn(c: Config, s: State, steps: seq<Step>)
    requires Reachable(c, s) && IsRun(c, s, steps)
    ensures Reachable(c, Reach(c, s, steps))
  {
    hide IsRun, Reach;
    var before :| IsRun(c, START, before) && Reach(c, START, before) == s;
    RunConcat(c, START, before, steps);
  }

  /** Any worker, in any reachable state, can get ready by itself, whichever manifests its repair finds
      in the store. */
  lemma Recover(c: Config, s: State, w: nat, available: set<Path>) returns (steps: seq<Step>)
    requires Reachable(c, s)
    ensures IsRun(c, s, steps) && Finds(steps, available)
    ensures SameCommits(s, Reach(c, s, steps)) && Ready(Reach(c, s, steps), w)
  {
    hide Inv, IsRun, Reach, Reachable, Fresh;
    ReachableInv(c, s);
    var a := StartOver(c, s, w, available);
    ReachableOn(c, s, a);
    var b := Repairs(c, Reach(c, s, a), w, available);
    RunConcat(c, s, a, b);
    FindsConcat(a, b, available);
    steps := a + b;
    BecomesReady(c, Reach(c, s, steps), w);
  }

  // ---- And commits ----

  /** What resolving a batch gives, when every key can be read. */
  ghost function ResolutionOf(rules: Rules, rows: RowSet, view: KeyMap, records: seq<StreamRecord>): Resolution
    requires forall k :: KeyEnd(rules, rows, view, records, k).Ok?
  {
    var keys := KeysOf(rules, records);
    Resolution(
      map k | k in keys && KeyEnd(rules, rows, view, records, k).value.0.Written? ::
        KeyEnd(rules, rows, view, records, k).value.0.row,
      map k | k in keys && k in view && !KeyEnd(rules, rows, view, records, k).value.0.Unchanged? :: view[k],
      RefusedLetters(rules, records) + KeyLetters(rules, rows, view, records, keys))
  }

  lemma ResolutionResolves(rules: Rules, rows: RowSet, view: KeyMap, records: seq<StreamRecord>)
    requires forall k :: KeyEnd(rules, rows, view, records, k).Ok?
    ensures Resolves(rules, rows, view, records, KeysOf(rules, records), ResolutionOf(rules, rows, view, records))
  {
    hide KeyEnd, KeysOf, KeyLetters, RefusedLetters;
    var r := ResolutionOf(rules, rows, view, records);
    forall k | k in KeysOf(rules, records)
      ensures KeyResolves(KeyEnd(rules, rows, view, records, k), view, k, r)
    {
    }
  }

  /** A ready worker can prepare any batch that fits the live manifest. */
  lemma CanPrepare(c: Config, s: State, w: nat, batch: Batch, path: Path, objects: NewObjects) returns (step: Step)
    requires Inv(c, s) && Ready(s, w) && path !in s.store && BatchOk(batch)
    requires BatchFits(LiveManifest(s).applied, batch)
    requires LiveManifest(s).lance.nextRow + |batch.records| <= U64_MAX
    ensures Enabled(c, s, step)
    ensures var t := Do(c, s, step);
            var worker := WorkerAt(t, w);
            && t.history == s.history && t.pointer == s.pointer && worker.phase.Prepared? && worker.parent.Some?
            && worker.parent.value.manifest.version == LiveVersion(t) && Unfenced(t, worker)
            && worker.phase.batch == batch && worker.phase.manifest.kind.LinkApply?
    ensures step.PrepareLink?
  {
    hide Inv, KeyRows, Applies, LinkManifest, BatchOk, BatchFits, Resolves, KeyEnd, LanceWrote, KeysOf, Whole,
         ResolutionOf;
    var p, view := WorkerAt(s, w).parent.value, WorkerAt(s, w).handle.value.view.keys;
    LiveParent(c, s, w);
    ResolveWorks(c.rules, p.manifest, view, batch);
    ResolutionResolves(c.rules, p.manifest.lance.rows, view, batch.records);
    var r := ResolutionOf(c.rules, p.manifest.lance.rows, view, batch.records);
    ResolvedKeys(c.rules, p.manifest.lance.rows, view, batch.records, r);
    InsertCount(c.rules, batch.records, r);
    forall k | k in r.inserts ensures r.inserts[k].doc.pk == k {
      InsertsKeyed(c.rules, p.manifest.lance.rows, view, batch.records, r, k);
    }
    var order := KeyOrders.ListKeys(r.inserts.Keys);
    RowsAtWrite(p.manifest.lance, r.inserts, order, {});
    var rows := RowsAt(p.manifest.lance, r.inserts, order, {});
    MakeApplies(c.rules, p.manifest, view, batch, r, rows);
    LinkCounts(p.manifest, batch, r, rows, p.path, 0, objects, {});
    step := PrepareLink(w, path, 0, batch, r, rows, objects, {});
  }

  lemma LiveParent(c: Config, s: State, w: nat)
    requires Inv(c, s) && Ready(s, w)
    ensures WorkerAt(s, w).parent.value.manifest == LiveManifest(s) && Whole(LiveManifest(s))
  {
    hide ChainOk, StoreOk, IndexTrue, KeyRows, Whole, HandleOk;
    WorkerIs(c, s, w);
    VersionAt(c.rules, s.history, |s.history|);
  }

  /** In every reachable state, any batch that fits the live manifest can be committed by one worker
      alone, after which the PK index reflects the new live manifest. */
  lemma CanAlwaysCommit(
    c: Config, s: State, w: nat, available: set<Path>, batch: Batch, path: Path, objects: NewObjects)
    returns (steps: seq<Step>)
    requires Reachable(c, s) && path !in s.store && BatchOk(batch)
    requires BatchFits(LiveManifest(s).applied, batch)
    requires LiveManifest(s).lance.nextRow + |batch.records| <= U64_MAX
    ensures IsRun(c, s, steps) && Finds(steps, available)
    ensures var t := Reach(c, s, steps);
            && |t.history| == |s.history| + 1 && t.history[..|s.history|] == s.history
            && t.history[|s.history|].batch == batch
            && t.index.mark.applied == LiveManifest(t).applied && Exact(t.index.keys, LiveManifest(t).lance.rows)
  {
    hide Inv, IsRun, Reach, Reachable, Ready, BatchOk, BatchFits, Exact;
    var a := Recover(c, s, w, available);
    ReachableOn(c, s, a);
    var s1 := Reach(c, s, a);
    ReachableInv(c, s1);
    var prepare := CanPrepare(c, s1, w, batch, path, objects);
    OneStep(c, s1, prepare);
    RunConcat(c, s, a, [prepare]);
    StepKeeps(c, s1, prepare);
    var s2 := Do(c, s1, prepare);
    var b := Lands(c, s2, w);
    RunConcat(c, s, a + [prepare], b);
    steps := a + [prepare] + b;
    FindsConcat(a, [prepare], available);
    FindsConcat(a + [prepare], b, available);
    ReachableOn(c, s, steps);
    var t := Reach(c, s, steps);
    PkIndexCrashSafe(c, t, |t.history|);
  }

  /** The CAS and the PK write of a prepared worker on the live manifest. */
  lemma Lands(c: Config, s: State, w: nat) returns (steps: seq<Step>)
    requires Inv(c, s)
    requires var worker := WorkerAt(s, w);
             && worker.phase.Prepared? && worker.parent.Some? && Unfenced(s, worker)
             && worker.parent.value.manifest.version == LiveVersion(s) && worker.phase.manifest.kind.LinkApply?
    ensures IsRun(c, s, steps) && forall i :: 0 <= i < |steps| ==> steps[i].Cas? || steps[i].WritePk?
    ensures var worker, t := WorkerAt(s, w), Reach(c, s, steps);
            && t.history == s.history + [Commit(worker.phase.path, worker.phase.manifest, worker.phase.batch)]
            && t.index.mark.applied == worker.phase.manifest.applied
  {
    hide Inv, IsRun, Reach, ApplyDelta;
    var cas := Cas(w, true);
    OneStep(c, s, cas);
    var s1 := Do(c, s, cas);
    var write := WritePk(w, Acked);
    OneStep(c, s1, write);
    RunConcat(c, s, [cas], [write]);
    steps := [cas] + [write];
  }
}
