/** Any number of workers committing to one collection: loading a parent, opening, repairing and
    rebuilding the PK index, preparing a manifest, the pointer CAS and the PK write, with a crash, a
    lost acknowledgement, a CAS that lands late or a fenced writer possible at every step
    (crates/loams-collection/src/target.rs; the rebase loop of index_build.rs). */
module Protocol {
  import opened Prelude
  import opened Splits
  import opened Resolve
  import opened Offsets
  import opened RowSets
  import opened Commits
  import opened History
  import opened PkDeltas
  import opened PkIndexes

  /** A collection's rules, and how many entries one write of a rebuild takes. */
  datatype Config = Config(rules: Rules, chunk: nat)

  /** A manifest a worker builds on, and where it is stored (`None` before the first commit). */
  datatype Parent = Parent(path: Option<Path>, manifest: Manifest)

  /** A PK index handle: its epoch, what it reads, and the watermark the worker remembers. */
  datatype Handle = Handle(epoch: nat, view: Index, mark: Watermark)

  /** `Sent` is no worker's phase but a CAS on its way to the metastore: one that its worker has sent
      and may have sent again, or given up on. */
  datatype Phase =
    | Idle
    | Opened
    | Rebuilding(rest: seq<Entry>, target: Watermark)
    | Prepared(path: Path, manifest: Manifest, batch: Batch)
    | Sent(path: Path, manifest: Manifest, batch: Batch)
    | Landed(delta: Delta, target: Watermark)

  datatype Worker = Worker(parent: Option<Parent>, handle: Option<Handle>, phase: Phase)

  datatype Pointer = Pointer(version: nat, path: Path)

  /** The metastore's pointer, the manifests ever stored, the durable PK index and the epoch of its
      last writer, the workers, and the commits so far. */
  datatype State = State(
    pointer: Option<Pointer>, store: Store, index: Index, epoch: nat, workers: map<nat, Worker>,
    history: seq<Commit>)

  const START: State := State(None, map[], Index(map[], NO_MARK), 0, map[], [])

  /** How a write to the PK index ends: it happens and the worker knows; it happens and the worker
      loses its handle, or is cancelled before it notes the new watermark; it does not happen. */
  datatype Ending = Acked | HandleLost | Cancelled | NotWritten

  datatype Step =
    | Load(w: nat, version: nat)
    | Crash(w: nat)
    | Abandon(w: nat)
    | DropHandle(w: nat)
    | Open(w: nat)
    | Keep(w: nat)
    | Catch(w: nat, available: set<Path>, lost: bool)
    | StartRebuild(w: nat, available: set<Path>, entries: seq<Entry>, lost: bool)
    | RebuildChunk(w: nat, lost: bool)
    | PrepareLink(
        w: nat, path: Path, started: nat, batch: Batch, resolution: Resolution, rows: NewRows,
        objects: NewObjects, indexes: set<string>)
    | PrepareIndex(w: nat, path: Path, started: nat, index: string, removed: set<string>, files: set<Path>, kind: Kind)
    | Cas(w: nat, acked: bool)
    | Send(w: nat, command: nat)
    | LateCas(w: nat)
    | Recognise(w: nat)
    | Conflict(w: nat)
    | WritePk(w: nat, ending: Ending)

  function WorkerAt(s: State, w: nat): Worker {
    if w in s.workers then s.workers[w] else Worker(None, None, Idle)
  }

  function Put(s: State, w: nat, worker: Worker): State {
    s.(workers := s.workers[w := worker])
  }

  function LiveVersion(s: State): nat {
    if s.pointer.None? then 0 else s.pointer.value.version
  }

  /** A write through `worker`'s handle takes effect only if no later handle was opened. */
  predicate Unfenced(s: State, worker: Worker) {
    worker.handle.Some? && worker.handle.value.epoch == s.epoch
  }

  function Target(p: Parent): Watermark {
    Watermark(p.manifest.version, p.manifest.applied)
  }

  /** The durable index after a write, and the handle that wrote it. */
  function WriteIndex(s: State, entries: seq<Entry>): State {
    s.(index := WriteAll(s.index, entries))
  }

  /** What `repair` decides for a fresh handle that reads `current`. */
  datatype Repair = KeepIndex | StaleParent | ReplayThese(changes: Delta) | RebuildAll | RepairFails

  ghost function RepairOf(s: State, p: Parent, current: Watermark, available: set<Path>): Repair
    requires StoreDescends(s.store) && Descends(p.manifest)
  {
    if current.applied == p.manifest.applied then KeepIndex
    else if current == REBUILDING then RebuildAll
    else if current.version > p.manifest.version then StaleParent
    else
      match ReplayFrom(s.store, available, current, p.manifest)
      case Deltas(changes) => ReplayThese(changes)
      case ReplayGone => RebuildAll
      case ReplayUnmatched => RebuildAll
      case ReplayBroken => RepairFails
  }

  /** The manifest a prepared worker has just stored. */
  ghost function NewManifest(s: State, step: Step): Manifest
    requires step.PrepareLink? || step.PrepareIndex?
    requires WorkerAt(s, step.w).parent.Some?
  {
    var p := WorkerAt(s, step.w).parent.value;
    match step
    case PrepareLink(_, _, started, batch, r, rows, objects, indexes) =>
      LinkManifest(p.manifest, p.path, started, batch, r, rows, objects, indexes)
    case PrepareIndex(_, _, started, index, removed, files, kind) =>
      IndexManifest(p.manifest, p.path, started, index, removed, files, kind)
  }

  ghost predicate Enabled(c: Config, s: State, step: Step) {
    var worker := WorkerAt(s, step.w);
    match step
    case Load(_, version) =>
      worker.phase.Idle? && version <= |s.history| && (version > 0 ==> s.history[version - 1].path in s.store)
    case Crash(_) => true
    case Abandon(_) => true
    case DropHandle(_) => worker.phase.Idle?
    case Open(_) => worker.phase.Idle? && worker.parent.Some?
                    && (worker.handle.Some? ==>
                          worker.handle.value.mark.applied != worker.parent.value.manifest.applied)
    case Keep(_) =>
      && worker.phase.Opened? && worker.handle.Some? && worker.parent.Some?
      && var current := worker.handle.value.view.mark;
         var m := worker.parent.value.manifest;
         current.applied == m.applied || (current != REBUILDING && current.version > m.version)
    case Catch(_, available, _) =>
      && worker.phase.Opened? && Unfenced(s, worker) && worker.parent.Some?
      && StoreDescends(s.store) && Descends(worker.parent.value.manifest)
      && RepairOf(s, worker.parent.value, worker.handle.value.view.mark, available).ReplayThese?
    case StartRebuild(_, available, entries, _) =>
      && worker.phase.Opened? && Unfenced(s, worker) && worker.parent.Some?
      && StoreDescends(s.store) && Descends(worker.parent.value.manifest)
      && RepairOf(s, worker.parent.value, worker.handle.value.view.mark, available).RebuildAll?
      && RebuildPlan(
           worker.handle.value.view, KeyRows(worker.parent.value.manifest.lance.rows),
           Target(worker.parent.value), entries)
    case RebuildChunk(_, _) =>
      worker.phase.Rebuilding? && Unfenced(s, worker)
    case PrepareLink(_, path, _, batch, r, rows, _, _) =>
      && worker.phase.Idle? && worker.parent.Some? && worker.handle.Some? && path !in s.store
      && worker.handle.value.mark.applied == worker.parent.value.manifest.applied
      && BatchOk(batch)
      && Applies(c.rules, worker.parent.value.manifest, worker.handle.value.view.keys, batch, r, rows)
    case PrepareIndex(_, path, _, _, _, _, kind) =>
      worker.phase.Idle? && worker.parent.Some? && path !in s.store && !kind.LinkApply?
    case Cas(_, _) =>
      worker.phase.Prepared? && worker.parent.Some? && LiveVersion(s) == worker.parent.value.manifest.version
    case Send(_, command) => worker.phase.Prepared? && worker.parent.Some? && command != step.w && command !in s.workers
    case LateCas(_) =>
      worker.phase.Sent? && worker.parent.Some? && LiveVersion(s) == worker.parent.value.manifest.version
    case Recognise(_) =>
      && worker.phase.Prepared? && worker.parent.Some?
      && s.pointer == Some(Pointer(worker.parent.value.manifest.version + 1, worker.phase.path))
    case Conflict(_) => worker.phase.Prepared?
    case WritePk(_, ending) =>
      worker.phase.Landed? && worker.handle.Some? && (!ending.NotWritten? ==> Unfenced(s, worker))
  }

  /** A handle's view after a write of `entries`. */
  function Rewritten(h: Handle, entries: seq<Entry>): Handle {
    h.(view := WriteAll(h.view, entries))
  }

  /** `worker` once its CAS is known to have landed: it remembers the new manifest, and if it applied
      a batch it goes on to write the PK index. */
  function AfterCas(worker: Worker): Worker
    requires worker.phase.Prepared?
  {
    var m := worker.phase.manifest;
    var parent := Parent(Some(worker.phase.path), m);
    worker.(
      parent := Some(parent),
      phase := if m.kind.LinkApply? then Landed(Replay(m), Target(parent)) else Idle)
  }

  /** The pointer and the history once the CAS of `worker` has landed. */
  function Advance(s: State, worker: Worker): State
    requires (worker.phase.Prepared? || worker.phase.Sent?) && worker.parent.Some?
  {
    var commit := Commit(worker.phase.path, worker.phase.manifest, worker.phase.batch);
    s.(
      pointer := Some(Pointer(worker.parent.value.manifest.version + 1, commit.path)),
      history := s.history + [commit])
  }

  ghost function Do(c: Config, s: State, step: Step): State
    requires Enabled(c, s, step)
  {
    var w, worker := step.w, WorkerAt(s, step.w);
    match step
    case Load(_, version) =>
      var parent := if version == 0 then Parent(None, EMPTY)
                    else Parent(Some(s.history[version - 1].path), s.store[s.history[version - 1].path]);
      Put(s, w, worker.(parent := Some(parent)))
    case Crash(_) => Put(s, w, Worker(None, None, Idle))
    case Abandon(_) =>
      Put(s, w, Worker(
            worker.parent, if worker.phase.Opened? || worker.phase.Rebuilding? then None else worker.handle, Idle))
    case DropHandle(_) => Put(s, w, worker.(handle := None))
    case Open(_) =>
      Put(s.(epoch := s.epoch + 1), w,
          worker.(handle := Some(Handle(s.epoch + 1, s.index, NO_MARK)), phase := Opened))
    case Keep(_) =>
      var h := worker.handle.value;
      Put(s, w, Worker(worker.parent, Some(h.(mark := h.view.mark)), Idle))
    case Catch(_, available, lost) =>
      var p, h := worker.parent.value, worker.handle.value;
      var changes := RepairOf(s, p, h.view.mark, available).changes;
      var after := Index(ApplyDelta(s.index.keys, changes), Target(p));
      Put(s.(index := after), w,
          worker.(handle := if lost then None else Some(h.(view := after, mark := Target(p))), phase := Idle))
    case StartRebuild(_, _, entries, lost) =>
      if |entries| > c.chunk then
        Put(WriteIndex(s, [Mark(REBUILDING)]), w,
            if lost then worker.(handle := None, phase := Idle)
            else worker.(
                   handle := Some(Rewritten(worker.handle.value, [Mark(REBUILDING)])),
                   phase := Rebuilding(entries, Target(worker.parent.value))))
      else
        Put(WriteIndex(s, entries), w,
            if lost then worker.(handle := None, phase := Idle)
            else worker.(
                   handle := Some(Rewritten(worker.handle.value, entries).(mark := Target(worker.parent.value))),
                   phase := Idle))
    case RebuildChunk(_, lost) =>
      var rest, target := worker.phase.rest, worker.phase.target;
      var n := if |rest| < c.chunk then |rest| else c.chunk;
      var h := Rewritten(worker.handle.value, rest[..n]);
      Put(WriteIndex(s, rest[..n]), w,
          if lost then worker.(handle := None, phase := Idle)
          else if n < |rest| then worker.(handle := Some(h), phase := Rebuilding(rest[n..], target))
          else worker.(handle := Some(h.(mark := target)), phase := Idle))
    case PrepareLink(_, path, _, batch, _, _, _, _) =>
      var m := NewManifest(s, step);
      Put(s.(store := s.store[path := m]), w, worker.(phase := Prepared(path, m, batch)))
    case PrepareIndex(_, path, _, _, _, _, _) =>
      var m := NewManifest(s, step);
      Put(s.(store := s.store[path := m]), w, worker.(phase := Prepared(path, m, NOTHING)))
    case Cas(_, acked) => Put(Advance(s, worker), w, if acked then AfterCas(worker) else worker)
    case Send(_, command) =>
      Put(s, command,
          Worker(worker.parent, None, Sent(worker.phase.path, worker.phase.manifest, worker.phase.batch)))
    case LateCas(_) => Put(Advance(s, worker), w, Worker(None, None, Idle))
    case Recognise(_) => Put(s, w, AfterCas(worker))
    case Conflict(_) => Put(s, w, worker.(phase := Idle))
    case WritePk(_, ending) =>
      var h := worker.handle.value;
      if ending.NotWritten? then Put(s, w, worker.(phase := Idle))
      else
        var after := Index(ApplyDelta(s.index.keys, worker.phase.delta), worker.phase.target);
        Put(s.(index := after), w,
            worker.(
              phase := Idle,
              handle := if ending.HandleLost? then None
                        else if ending.Cancelled? then Some(h.(view := after))
                        else Some(h.(view := after, mark := worker.phase.target))))
  }

  /** `steps` can be taken one after another from `s`. */
  ghost predicate IsRun(c: Config, s: State, steps: seq<Step>)
    decreases |steps|
  {
    steps == [] || (Enabled(c, s, steps[0]) && IsRun(c, Do(c, s, steps[0]), steps[1..]))
  }

  ghost function Reach(c: Config, s: State, steps: seq<Step>): State
    requires IsRun(c, s, steps)
    decreases |steps|
  {
    if steps == [] then s else Reach(c, Do(c, s, steps[0]), steps[1..])
  }
}
