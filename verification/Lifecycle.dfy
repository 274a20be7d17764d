/** Workers committing to a collection while garbage collection deletes its objects and trims cut its
    stream: the runs of both machines together. */
module Lifecycle {
  import opened Prelude
  import opened Splits
  import opened Offsets
  import opened RowSets
  import opened Batching
  import opened Commits
  import opened History
  import opened PkDeltas
  import opened Retained
  import Protocol
  import ProtocolSafety
  import ProtocolTheorems
  import Recovery
  import Retention
  import RetentionSafety

  /** The committing workers and the objects they work on. */
  datatype State = State(p: Protocol.State, g: Retention.State)

  const START: State := State(Protocol.START, Retention.START)

  /** A step of a worker, which may store a manifest at `time` or commit within `maxAge`; or a step of the
      clock, of an object store, of garbage collection or of a trim. */
  datatype Step =
    | Work(step: Protocol.Step, time: nat, maxAge: nat)
    | Tend(tend: Retention.Step)

  /** The CAS of `worker` may be on its way. */
  predicate Sending(worker: Protocol.Worker) {
    worker.phase.Prepared? || worker.phase.Sent?
  }

  /** Steps of the retention machine that no worker makes. */
  predicate Tending(step: Retention.Step) {
    !step.PutManifest? && !step.Commit? && !step.Resend? && !step.GiveUp?
  }

  /** What the surroundings promise a worker's step: a manifest goes to a new path, after the objects it
      references were written; and the metastore refuses a CAS past its deadline. */
  ghost predicate Allowed(l: Retention.Limits, s: State, step: Step)
    requires step.Work?
  {
    var worker := Protocol.WorkerAt(s.p, step.step.w);
    match step.step
    case PrepareLink(_, path, started, _, r, rows, objects, _) =>
      && path !in s.g.times && started <= step.time && worker.parent.Some?
      && RetentionSafety.WrittenSince(s.g, started, LinkWrites(worker.parent.value.manifest, r, rows, objects))
    case PrepareIndex(_, path, started, _, _, files, _) =>
      && path !in s.g.times && started <= step.time && worker.parent.Some?
      && RetentionSafety.WrittenSince(s.g, started, files - worker.parent.value.manifest.lance.files)
    case Cas(_, _) => InTime(l, s, worker, step.maxAge)
    case LateCas(_) => InTime(l, s, worker, step.maxAge)
    case _ => true
  }

  ghost predicate InTime(l: Retention.Limits, s: State, worker: Protocol.Worker, maxAge: nat) {
    Sending(worker) && maxAge < l.grace && s.g.clock <= SaturatingAdd(worker.phase.manifest.createdAt, maxAge)
  }

  ghost predicate Enabled(c: Protocol.Config, l: Retention.Limits, s: State, step: Step) {
    match step
    case Work(work, _, _) => Protocol.Enabled(c, s.p, work) && Allowed(l, s, step)
    case Tend(tend) => Tending(tend) && Retention.Enabled(l, s.g, tend)
  }

  /** What a worker's step does in the retention machine. */
  ghost function Mirror(c: Protocol.Config, s: State, step: Step): seq<Retention.Step>
    requires step.Work? && Protocol.Enabled(c, s.p, step.step)
  {
    var w := step.step.w;
    match step.step
    case PrepareLink(_, path, _, _, _, _, _, _) =>
      [Retention.PutManifest(w, path, step.time, Protocol.NewManifest(s.p, step.step))]
    case PrepareIndex(_, path, _, _, _, _, _) =>
      [Retention.PutManifest(w, path, step.time, Protocol.NewManifest(s.p, step.step))]
    case Cas(_, acked) =>
      [Retention.Commit(w, step.maxAge)] + if acked then [Retention.GiveUp(w)] else []
    case LateCas(_) => [Retention.Commit(w, step.maxAge), Retention.GiveUp(w)]
    case Send(_, command) => [Retention.Resend(w, command)]
    case _ => if Sending(Protocol.WorkerAt(s.p, w)) then [Retention.GiveUp(w)] else []
  }

  /** The state after `steps`, which `StepKeeps` shows can always be taken. */
  ghost function After(l: Retention.Limits, g: Retention.State, steps: seq<Retention.Step>): Retention.State {
    if Retention.IsRun(l, g, steps) then Retention.Reach(l, g, steps) else g
  }

  ghost function Do(c: Protocol.Config, l: Retention.Limits, s: State, step: Step): State
    requires Enabled(c, l, s, step)
  {
    match step
    case Work(work, _, _) => State(Protocol.Do(c, s.p, work), After(l, s.g, Mirror(c, s, step)))
    case Tend(tend) => s.(g := Retention.Do(l, s.g, tend))
  }

  ghost predicate IsRun(c: Protocol.Config, l: Retention.Limits, s: State, steps: seq<Step>)
    decreases |steps|
  {
    steps == [] || (Enabled(c, l, s, steps[0]) && IsRun(c, l, Do(c, l, s, steps[0]), steps[1..]))
  }

  ghost function Reach(c: Protocol.Config, l: Retention.Limits, s: State, steps: seq<Step>): State
    requires IsRun(c, l, s, steps)
    decreases |steps|
  {
    if steps == [] then s else Reach(c, l, Do(c, l, s, steps[0]), steps[1..])
  }

  // ---- The two machines stay in step ----

  /** The same commits, the same manifests, and a pending commit for every CAS on its way. */
  ghost predicate Matched(s: State) {
    && SameChain(s.p.history, s.g.chain) && s.g.store == s.p.store
    && (forall w :: w in s.g.pending <==> Sending(Protocol.WorkerAt(s.p, w)))
    && (forall w :: w in s.g.pending ==> s.g.pending[w] == PendingOf(Protocol.WorkerAt(s.p, w)))
  }

  ghost predicate SameChain(history: seq<Commit>, chain: seq<Entry>) {
    |chain| == |history| && forall i :: 0 <= i < |chain| ==> chain[i] == Entry(history[i].path, history[i].manifest)
  }

  function PendingOf(worker: Protocol.Worker): Retention.Pending {
    if Sending(worker) then Retention.Pending(worker.phase.path, worker.phase.manifest.createdAt)
    else Retention.Pending("", 0)
  }

  /** Both machines are where a run of their own could be, and they match. */
  ghost predicate Inv(c: Protocol.Config, l: Retention.Limits, s: State) {
    ProtocolTheorems.Reachable(c, s.p) && RetentionSafety.Reachable(l, s.g) && Matched(s)
  }

  lemma {:induction false} RunMore(
    l: Retention.Limits, g: Retention.State, steps: seq<Retention.Step>, step: Retention.Step)
    requires Retention.IsRun(l, g, steps) && Retention.Enabled(l, Retention.Reach(l, g, steps), step)
    ensures Retention.IsRun(l, g, steps + [step])
    ensures Retention.Reach(l, g, steps + [step]) == Retention.Do(l, Retention.Reach(l, g, steps), step)
    decreases |steps|
  {
    hide Retention.Enabled, Retention.Do;
    if steps == [] {
      assert (steps + [step])[1..] == [];
      assert Retention.IsRun(l, Retention.Do(l, g, step), []);
    } else {
      RunMore(l, Retention.Do(l, g, steps[0]), steps[1..], step);
      assert (steps + [step])[1..] == steps[1..] + [step];
    }
  }

  lemma TendReachable(l: Retention.Limits, g: Retention.State, step: Retention.Step)
    requires RetentionSafety.Reachable(l, g) && Retention.Enabled(l, g, step)
    ensures RetentionSafety.Reachable(l, Retention.Do(l, g, step))
  {
    hide Retention.Enabled, Retention.Do, Retention.IsRun, Retention.Reach;
    var steps :| Retention.IsRun(l, Retention.START, steps) && Retention.Reach(l, Retention.START, steps) == g;
    RunMore(l, Retention.START, steps, step);
  }

  lemma OneAfter(l: Retention.Limits, g: Retention.State, step: Retention.Step)
    requires Retention.Enabled(l, g, step)
    ensures Retention.IsRun(l, g, [step]) && After(l, g, [step]) == Retention.Do(l, g, step)
  {
    hide Retention.Enabled, Retention.Do;
    assert [step][1..] == [];
    assert Retention.IsRun(l, Retention.Do(l, g, step), []);
    assert Retention.Reach(l, g, [step]) == Retention.Reach(l, Retention.Do(l, g, step), []);
  }

  lemma TwoAfter(l: Retention.Limits, g: Retention.State, a: Retention.Step, b: Retention.Step)
    requires Retention.Enabled(l, g, a) && Retention.Enabled(l, Retention.Do(l, g, a), b)
    ensures Retention.IsRun(l, g, [a, b])
    ensures After(l, g, [a, b]) == Retention.Do(l, Retention.Do(l, g, a), b)
  {
    hide Retention.Enabled, Retention.Do;
    OneAfter(l, Retention.Do(l, g, a), b);
    assert [a, b][1..] == [b];
  }

  lemma NoneAfter(l: Retention.Limits, g: Retention.State)
    ensures Retention.IsRun(l, g, []) && After(l, g, []) == g
  {
  }

  lemma WorkReachable(c: Protocol.Config, p: Protocol.State, step: Protocol.Step)
    requires ProtocolTheorems.Reachable(c, p) && Protocol.Enabled(c, p, step)
    ensures ProtocolTheorems.Reachable(c, Protocol.Do(c, p, step))
  {
    hide *;
    Recovery.OneStep(c, p, step);
    Recovery.ReachableOn(c, p, [step]);
  }

  // ---- What a worker's step changes ----

  /** Only worker `w` changes; nothing is stored or committed. */
  ghost predicate OnlyWorker(p: Protocol.State, after: Protocol.State, w: nat) {
    && after.history == p.history && after.store == p.store
    && forall v :: v != w ==> Protocol.WorkerAt(after, v) == Protocol.WorkerAt(p, v)
  }

  predicate Plain(step: Protocol.Step) {
    !step.PrepareLink? && !step.PrepareIndex? && !step.Cas? && !step.LateCas? && !step.Send?
  }

  lemma PlainStep(c: Protocol.Config, p: Protocol.State, step: Protocol.Step)
    requires Protocol.Enabled(c, p, step) && Plain(step)
    ensures var after := Protocol.Do(c, p, step);
            OnlyWorker(p, after, step.w) && !Sending(Protocol.WorkerAt(after, step.w))
  {
    hide Protocol.RepairOf, ApplyDelta, KeyRows, StoreDescends;
  }

  lemma GivesUp(l: Retention.Limits, g: Retention.State, w: nat)
    requires w in g.pending
    ensures Retention.Enabled(l, g, Retention.GiveUp(w))
    ensures Retention.Do(l, g, Retention.GiveUp(w)) == g.(pending := g.pending - {w})
  {
  }

  lemma DoWork(c: Protocol.Config, l: Retention.Limits, s: State, step: Step)
    requires step.Work? && Enabled(c, l, s, step)
    ensures Protocol.Enabled(c, s.p, step.step) && Allowed(l, s, step)
    ensures Do(c, l, s, step) == State(Protocol.Do(c, s.p, step.step), After(l, s.g, Mirror(c, s, step)))
  {
    hide Protocol.Enabled, Protocol.Do, Mirror, After, Allowed;
  }

  lemma InvParts(c: Protocol.Config, l: Retention.Limits, s: State)
    ensures Inv(c, l, s) <==>
            ProtocolTheorems.Reachable(c, s.p) && RetentionSafety.Reachable(l, s.g) && Matched(s)
  {
    hide ProtocolTheorems.Reachable, RetentionSafety.Reachable, Matched;
  }

  /** A worker that sends nothing any more has no pending commit. */
  lemma MatchedLeft(s: State, p: Protocol.State, w: nat)
    requires Matched(s) && OnlyWorker(s.p, p, w) && !Sending(Protocol.WorkerAt(p, w))
    ensures Matched(State(p, s.g.(pending := s.g.pending - {w})))
    ensures !Sending(Protocol.WorkerAt(s.p, w)) ==> s.g.pending - {w} == s.g.pending
  {
    hide SameChain;
  }

  lemma SendersMatch(s: State, w: nat)
    requires Matched(s)
    ensures w in s.g.pending <==> Sending(Protocol.WorkerAt(s.p, w))
    ensures w in s.g.pending ==> s.g.pending[w] == PendingOf(Protocol.WorkerAt(s.p, w))
  {
    hide SameChain;
  }

  lemma MirrorPlain(c: Protocol.Config, s: State, step: Step)
    requires step.Work? && Protocol.Enabled(c, s.p, step.step) && Plain(step.step)
    ensures Mirror(c, s, step)
         == if Sending(Protocol.WorkerAt(s.p, step.step.w)) then [Retention.GiveUp(step.step.w)] else []
  {
    hide Protocol.Enabled;
  }

  lemma PlainKeeps(c: Protocol.Config, l: Retention.Limits, s: State, step: Step)
    requires Inv(c, l, s) && step.Work? && Enabled(c, l, s, step) && Plain(step.step)
    ensures Inv(c, l, Do(c, l, s, step)) && Retention.IsRun(l, s.g, MirrorOf(c, l, s, step))
  {
    hide *;
    var w := step.step.w;
    DoWork(c, l, s, step);
    MirrorIs(c, l, s, step);
    InvParts(c, l, s);
    PlainStep(c, s.p, step.step);
    WorkReachable(c, s.p, step.step);
    MatchedLeft(s, Protocol.Do(c, s.p, step.step), w);
    SendersMatch(s, w);
    MirrorPlain(c, s, step);
    if Sending(Protocol.WorkerAt(s.p, w)) {
      GivesUp(l, s.g, w);
      TendReachable(l, s.g, Retention.GiveUp(w));
      OneAfter(l, s.g, Retention.GiveUp(w));
    } else {
      NoneAfter(l, s.g);
      assert s.g.(pending := s.g.pending - {w}) == s.g;
    }
    InvParts(c, l, Do(c, l, s, step));
  }

  /** The mirror of an enabled step. */
  ghost function MirrorOf(c: Protocol.Config, l: Retention.Limits, s: State, step: Step): seq<Retention.Step>
    requires step.Work? && Enabled(c, l, s, step)
  {
    Mirror(c, s, step)
  }

  lemma MirrorIs(c: Protocol.Config, l: Retention.Limits, s: State, step: Step)
    requires step.Work? && Enabled(c, l, s, step)
    ensures Protocol.Enabled(c, s.p, step.step) && MirrorOf(c, l, s, step) == Mirror(c, s, step)
  {
    hide Protocol.Enabled, Mirror, Allowed;
  }

  // ---- Storing a manifest ----

  ghost predicate Preparing(step: Protocol.Step) {
    step.PrepareLink? || step.PrepareIndex?
  }

  lemma PrepareStep(c: Protocol.Config, p: Protocol.State, step: Protocol.Step)
    requires Protocol.Enabled(c, p, step) && Preparing(step)
    ensures Protocol.WorkerAt(p, step.w).parent.Some? && Protocol.WorkerAt(p, step.w).phase.Idle?
    ensures var after, m := Protocol.Do(c, p, step), Protocol.NewManifest(p, step);
            var phase := Protocol.WorkerAt(after, step.w).phase;
            && after.history == p.history && after.store == p.store[step.path := m]
            && phase.Prepared? && phase.path == step.path && phase.manifest == m
            && forall v :: v != step.w ==> Protocol.WorkerAt(after, v) == Protocol.WorkerAt(p, v)
  {
    hide LinkManifest, IndexManifest, Applies, BatchOk;
  }

  /** The manifest a worker prepares is one the retention machine covers. */
  lemma PutEnabled(c: Protocol.Config, l: Retention.Limits, s: State, step: Step)
    requires Inv(c, l, s) && step.Work? && Preparing(step.step)
    requires Protocol.Enabled(c, s.p, step.step) && Allowed(l, s, step)
    requires Protocol.WorkerAt(s.p, step.step.w).parent.Some?
    ensures Retention.Enabled(
              l, s.g,
              Retention.PutManifest(
                step.step.w, step.step.path, step.time, Protocol.NewManifest(s.p, step.step)))
  {
    hide *;
    InvParts(c, l, s);
    PrepareStep(c, s.p, step.step);
    var w := step.step.w;
    var worker := Protocol.WorkerAt(s.p, w);
    var p := worker.parent.value;
    var v := p.manifest.version;
    SendersMatch(s, w);
    IdleSendsNothing(worker);
    ParentMatches(c, s, w);
    ParentPathIs(s.g, v);
    PreparingIs(step.step);
    ChainLinked(l, s.g);
    PathsAllowed(l, s, step);
    if step.step.PrepareLink? {
      LinkAllowed(c, l, s, step);
      RetentionSafety.LinkIsCovered(
        s.g, v, step.step.started, step.step.batch, step.step.resolution, step.step.rows, step.step.objects,
        step.step.indexes);
      LinkPuts(s.g, v, p, step.step);
    } else {
      IndexAllowed(c, l, s, step);
      RetentionSafety.IndexIsCovered(
        s.g, v, step.step.started, step.step.index, step.step.removed, step.step.files, step.step.kind);
      IndexPuts(s.g, v, p, step.step);
    }
    NewManifestIs(s.p, step.step);
    PutIs(l, s.g, w, step.step.path, step.time, Protocol.NewManifest(s.p, step.step), v, step.step.started);
  }

  lemma IdleSendsNothing(worker: Protocol.Worker)
    requires worker.phase.Idle?
    ensures !Sending(worker)
  {
  }

  /** A worker's parent is a manifest of the retention machine's chain. */
  lemma ParentMatches(c: Protocol.Config, s: State, w: nat)
    requires ProtocolTheorems.Reachable(c, s.p) && Matched(s) && Protocol.WorkerAt(s.p, w).parent.Some?
    ensures var p := Protocol.WorkerAt(s.p, w).parent.value;
            && p.manifest.version <= |s.g.chain|
            && p.manifest == RetentionSafety.ParentAt(s.g, p.manifest.version)
            && p.path == ParentPath(s.g, p.manifest.version)
  {
    ProtocolTheorems.ReachableInv(c, s.p);
    hide ProtocolTheorems.Reachable, ProtocolSafety.PreparedOk, ProtocolSafety.RebuildingOk, ProtocolSafety.LandedOk,
         ProtocolSafety.HandleOk, ProtocolSafety.IndexTrue, ChainOk, ProtocolSafety.StoreOk;
    ProtocolSafety.WorkerIs(c, s.p, w);
  }

  ghost function ParentPath(g: Retention.State, v: nat): Option<Path>
    requires v <= |g.chain|
  {
    if v == 0 then None else Some(g.chain[v - 1].path)
  }

  lemma ParentPathIs(g: Retention.State, v: nat)
    requires v <= |g.chain|
    ensures ParentPath(g, v) == if v == 0 then None else Some(g.chain[v - 1].path)
  {
  }

  lemma PreparingIs(step: Protocol.Step)
    ensures Preparing(step) <==> step.PrepareLink? || step.PrepareIndex?
  {
  }

  lemma ChainLinked(l: Retention.Limits, g: Retention.State)
    requires RetentionSafety.Reachable(l, g)
    ensures Linked(g.chain)
  {
    hide RetentionSafety.Reachable, Retention.Inv, Linked;
    RetentionSafety.ReachableInv(l, g);
    RetentionSafety.InvParts(l, g);
  }

  lemma PathsAllowed(l: Retention.Limits, s: State, step: Step)
    requires step.Work? && Preparing(step.step) && Allowed(l, s, step)
    ensures step.step.path !in s.g.times && step.step.started <= step.time
  {
    hide RetentionSafety.WrittenSince, LinkWrites;
  }

  lemma LinkAllowed(c: Protocol.Config, l: Retention.Limits, s: State, step: Step)
    requires step.Work? && step.step.PrepareLink? && Protocol.Enabled(c, s.p, step.step) && Allowed(l, s, step)
    ensures var p := Protocol.WorkerAt(s.p, step.step.w).parent;
            && p.Some? && BatchFits(p.value.manifest.applied, step.step.batch)
            && RetentionSafety.WrittenSince(
                 s.g, step.step.started,
                 LinkWrites(p.value.manifest, step.step.resolution, step.step.rows, step.step.objects))
  {
    hide RetentionSafety.WrittenSince, LinkWrites, BatchFits;
  }

  lemma IndexAllowed(c: Protocol.Config, l: Retention.Limits, s: State, step: Step)
    requires step.Work? && step.step.PrepareIndex? && Protocol.Enabled(c, s.p, step.step) && Allowed(l, s, step)
    ensures var p := Protocol.WorkerAt(s.p, step.step.w).parent;
            && p.Some?
            && RetentionSafety.WrittenSince(
                 s.g, step.step.started, step.step.files - p.value.manifest.lance.files)
  {
    hide RetentionSafety.WrittenSince;
  }

  ghost predicate Puts(g: Retention.State, v: nat, m: Manifest, started: nat)
    requires v <= |g.chain|
  {
    && m.createdAt == started && m.parentVersion == v
    && Retention.BuiltOn(g, v, m) && Retention.NewRefs(g, v, m.createdAt, m)
  }

  lemma LinkPuts(g: Retention.State, v: nat, p: Protocol.Parent, step: Protocol.Step)
    requires step.PrepareLink? && v <= |g.chain| && p.manifest == RetentionSafety.ParentAt(g, v)
    requires p.path == ParentPath(g, v) && p.manifest.version == v
    requires var m := LinkManifest(
               RetentionSafety.ParentAt(g, v), ParentPath(g, v), step.started, step.batch, step.resolution, step.rows,
               step.objects, step.indexes);
             Retention.BuiltOn(g, v, m) && Retention.NewRefs(g, v, m.createdAt, m)
    ensures Puts(
              g, v,
              LinkManifest(
                p.manifest, p.path, step.started, step.batch, step.resolution, step.rows, step.objects, step.indexes),
              step.started)
  {
    hide LinkSplits, DeltaOf, Skipped, Replaced, Retention.NewRefs, Retention.BuiltOn;
  }

  lemma IndexPuts(g: Retention.State, v: nat, p: Protocol.Parent, step: Protocol.Step)
    requires step.PrepareIndex? && v <= |g.chain| && p.manifest == RetentionSafety.ParentAt(g, v)
    requires p.path == ParentPath(g, v) && p.manifest.version == v
    requires var m := IndexManifest(
               RetentionSafety.ParentAt(g, v), ParentPath(g, v), step.started, step.index, step.removed, step.files,
               step.kind);
             Retention.BuiltOn(g, v, m) && Retention.NewRefs(g, v, m.createdAt, m)
    ensures Puts(
              g, v,
              IndexManifest(p.manifest, p.path, step.started, step.index, step.removed, step.files, step.kind),
              step.started)
  {
    hide Retention.NewRefs, Retention.BuiltOn;
  }

  lemma NewManifestIs(p: Protocol.State, step: Protocol.Step)
    requires Preparing(step) && Protocol.WorkerAt(p, step.w).parent.Some?
    ensures var q := Protocol.WorkerAt(p, step.w).parent.value;
            Protocol.NewManifest(p, step)
            == if step.PrepareLink?
               then LinkManifest(
                      q.manifest, q.path, step.started, step.batch, step.resolution, step.rows, step.objects,
                      step.indexes)
               else IndexManifest(
                      q.manifest, q.path, step.started, step.index, step.removed, step.files, step.kind)
  {
    hide LinkManifest, IndexManifest;
  }

  lemma PutIs(
    l: Retention.Limits, g: Retention.State, w: nat, path: Path, time: nat, m: Manifest, v: nat, started: nat)
    requires w !in g.pending && path !in g.times && started <= time && v <= |g.chain| && Puts(g, v, m, started)
    ensures Retention.Enabled(l, g, Retention.PutManifest(w, path, time, m))
  {
    hide Retention.NewRefs, Retention.BuiltOn;
  }

  lemma PutDoes(l: Retention.Limits, g: Retention.State, w: nat, path: Path, time: nat, m: Manifest)
    requires Retention.Enabled(l, g, Retention.PutManifest(w, path, time, m))
    ensures var after := Retention.Do(l, g, Retention.PutManifest(w, path, time, m));
            && after.chain == g.chain && after.store == g.store[path := m]
            && after.pending == g.pending[w := Retention.Pending(path, m.createdAt)]
  {
    hide Retention.NewRefs, Retention.BuiltOn;
  }

  lemma MirrorPrepare(c: Protocol.Config, s: State, step: Step)
    requires step.Work? && Protocol.Enabled(c, s.p, step.step) && Preparing(step.step)
    ensures Protocol.WorkerAt(s.p, step.step.w).parent.Some?
    ensures Mirror(c, s, step)
         == [Retention.PutManifest(step.step.w, step.step.path, step.time, Protocol.NewManifest(s.p, step.step))]
  {
    hide LinkManifest, IndexManifest, Applies, BatchOk;
  }

  lemma MatchedPut(s: State, t: State, w: nat, path: Path, m: Manifest)
    requires Matched(s) && t.p.history == s.p.history && t.g.chain == s.g.chain
    requires t.p.store == s.p.store[path := m] && t.g.store == s.g.store[path := m]
    requires t.g.pending == s.g.pending[w := Retention.Pending(path, m.createdAt)]
    requires forall v :: v != w ==> Protocol.WorkerAt(t.p, v) == Protocol.WorkerAt(s.p, v)
    requires var phase := Protocol.WorkerAt(t.p, w).phase; phase.Prepared? && phase.path == path && phase.manifest == m
    ensures Matched(t)
  {
    hide SameChain;
  }

  lemma PrepareKeeps(c: Protocol.Config, l: Retention.Limits, s: State, step: Step)
    requires Inv(c, l, s) && step.Work? && Enabled(c, l, s, step) && Preparing(step.step)
    ensures Inv(c, l, Do(c, l, s, step)) && Retention.IsRun(l, s.g, MirrorOf(c, l, s, step))
  {
    hide *;
    DoWork(c, l, s, step);
    MirrorIs(c, l, s, step);
    MirrorPrepare(c, s, step);
    InvParts(c, l, s);
    WorkReachable(c, s.p, step.step);
    PrepareStep(c, s.p, step.step);
    PreparingIs(step.step);
    var m := Protocol.NewManifest(s.p, step.step);
    var put := Retention.PutManifest(step.step.w, step.step.path, step.time, m);
    PutEnabled(c, l, s, step);
    PutDoes(l, s.g, step.step.w, step.step.path, step.time, m);
    TendReachable(l, s.g, put);
    OneAfter(l, s.g, put);
    MatchedPut(s, Do(c, l, s, step), step.step.w, step.step.path, m);
    InvParts(c, l, Do(c, l, s, step));
  }

  // ---- Committing ----

  ghost predicate Committing(step: Protocol.Step) {
    step.Cas? || step.LateCas?
  }

  /** What a landed CAS commits. */
  function CommitOf(worker: Protocol.Worker): Commit
    requires Sending(worker)
  {
    Commit(worker.phase.path, worker.phase.manifest, worker.phase.batch)
  }

  /** Whether the worker goes on to send after its CAS: it has not learnt that it landed. */
  predicate StillSends(step: Protocol.Step) {
    step.Cas? && !step.acked
  }

  lemma CasStep(c: Protocol.Config, p: Protocol.State, step: Protocol.Step)
    requires Protocol.Enabled(c, p, step) && Committing(step)
    ensures var before, after := Protocol.WorkerAt(p, step.w), Protocol.Do(c, p, step);
            && Sending(before) && before.parent.Some?
            && before.parent.value.manifest.version == Protocol.LiveVersion(p)
            && after.history == p.history + [CommitOf(before)] && after.store == p.store
            && (forall v :: v != step.w ==> Protocol.WorkerAt(after, v) == Protocol.WorkerAt(p, v))
            && (if StillSends(step) then Protocol.WorkerAt(after, step.w) == before
                else !Sending(Protocol.WorkerAt(after, step.w)))
  {
  }

  /** The manifest of a CAS that lands was made on the live one, and is stored. */
  lemma SentMatches(c: Protocol.Config, s: State, w: nat)
    requires ProtocolTheorems.Reachable(c, s.p) && Matched(s)
    requires var worker := Protocol.WorkerAt(s.p, w);
             && Sending(worker) && worker.parent.Some?
             && worker.parent.value.manifest.version == Protocol.LiveVersion(s.p)
    ensures var phase := Protocol.WorkerAt(s.p, w).phase;
            && phase.path in s.g.store && s.g.store[phase.path] == phase.manifest
            && phase.manifest.parentVersion == |s.g.chain|
  {
    hide ProtocolTheorems.Reachable, ProtocolSafety.WorkerOk, ChainOk, ProtocolSafety.StoreOk,
         ProtocolSafety.IndexTrue, ProtocolSafety.WorkersOk, Follows, At, PathAt, Whole;
    ProtocolTheorems.ReachableInv(c, s.p);
    ProtocolSafety.WorkerIs(c, s.p, w);
    ProtocolSafety.WorkerCommits(c.rules, s.p.history, s.p.store, Protocol.WorkerAt(s.p, w));
    VersionAt(c.rules, s.p.history, |s.p.history|);
    FollowsOffsets(
      c.rules, At(s.p.history, |s.p.history|), Protocol.WorkerAt(s.p, w).phase.manifest,
      Protocol.WorkerAt(s.p, w).phase.batch);
  }

  lemma CommitDoes(l: Retention.Limits, g: Retention.State, w: nat, maxAge: nat)
    requires w in g.pending && g.pending[w].path in g.store && maxAge < l.grace
    requires g.store[g.pending[w].path].parentVersion == |g.chain|
    requires g.clock <= SaturatingAdd(g.pending[w].started, maxAge)
    ensures Retention.Enabled(l, g, Retention.Commit(w, maxAge))
    ensures var path := g.pending[w].path;
            Retention.Do(l, g, Retention.Commit(w, maxAge)) == g.(chain := g.chain + [Entry(path, g.store[path])])
  {
  }

  lemma MirrorCas(c: Protocol.Config, s: State, step: Step)
    requires step.Work? && Protocol.Enabled(c, s.p, step.step) && Committing(step.step)
    ensures Mirror(c, s, step)
         == if StillSends(step.step) then [Retention.Commit(step.step.w, step.maxAge)]
            else [Retention.Commit(step.step.w, step.maxAge), Retention.GiveUp(step.step.w)]
  {
    hide Protocol.Enabled;
  }

  lemma CasAllowed(l: Retention.Limits, s: State, step: Step)
    requires step.Work? && Committing(step.step) && Allowed(l, s, step)
    ensures InTime(l, s, Protocol.WorkerAt(s.p, step.step.w), step.maxAge)
  {
    hide InTime;
  }

  lemma InTimeIs(l: Retention.Limits, s: State, worker: Protocol.Worker, maxAge: nat)
    requires InTime(l, s, worker, maxAge)
    ensures maxAge < l.grace && s.g.clock <= SaturatingAdd(PendingOf(worker).started, maxAge)
    ensures PendingOf(worker).path == worker.phase.path
  {
  }

  lemma MatchedCommit(s: State, p: Protocol.State, w: nat, still: bool)
    requires Matched(s) && Sending(Protocol.WorkerAt(s.p, w)) && p.store == s.p.store
    requires p.history == s.p.history + [CommitOf(Protocol.WorkerAt(s.p, w))]
    requires forall v :: v != w ==> Protocol.WorkerAt(p, v) == Protocol.WorkerAt(s.p, v)
    requires if still then Protocol.WorkerAt(p, w) == Protocol.WorkerAt(s.p, w) else !Sending(Protocol.WorkerAt(p, w))
    ensures var phase := Protocol.WorkerAt(s.p, w).phase;
            var g := s.g.(chain := s.g.chain + [Entry(phase.path, phase.manifest)]);
            Matched(State(p, if still then g else g.(pending := g.pending - {w})))
  {
  }

  lemma CasKeeps(c: Protocol.Config, l: Retention.Limits, s: State, step: Step)
    requires Inv(c, l, s) && step.Work? && Enabled(c, l, s, step) && Committing(step.step)
    ensures Inv(c, l, Do(c, l, s, step)) && Retention.IsRun(l, s.g, MirrorOf(c, l, s, step))
  {
    hide *;
    var w := step.step.w;
    var worker := Protocol.WorkerAt(s.p, w);
    DoWork(c, l, s, step);
    MirrorIs(c, l, s, step);
    MirrorCas(c, s, step);
    InvParts(c, l, s);
    WorkReachable(c, s.p, step.step);
    CasStep(c, s.p, step.step);
    SentMatches(c, s, w);
    CasAllowed(l, s, step);
    InTimeIs(l, s, worker, step.maxAge);
    SendersMatch(s, w);
    var commit := Retention.Commit(w, step.maxAge);
    CommitDoes(l, s.g, w, step.maxAge);
    TendReachable(l, s.g, commit);
    var g := Retention.Do(l, s.g, commit);
    MatchedCommit(s, Protocol.Do(c, s.p, step.step), w, StillSends(step.step));
    if StillSends(step.step) {
      OneAfter(l, s.g, commit);
    } else {
      GivesUp(l, g, w);
      TendReachable(l, g, Retention.GiveUp(w));
      TwoAfter(l, s.g, commit, Retention.GiveUp(w));
    }
    InvParts(c, l, Do(c, l, s, step));
  }

  // ---- Sending again ----

  lemma SendStep(c: Protocol.Config, p: Protocol.State, step: Protocol.Step)
    requires Protocol.Enabled(c, p, step) && step.Send?
    ensures var before, after := Protocol.WorkerAt(p, step.w), Protocol.Do(c, p, step);
            var copy := Protocol.WorkerAt(after, step.command);
            && Sending(before) && !Sending(Protocol.WorkerAt(p, step.command))
            && Sending(copy) && PendingOf(copy) == PendingOf(before)
            && OnlyWorker(p, after, step.command)
  {
  }

  lemma ResendDoes(l: Retention.Limits, g: Retention.State, w: nat, copy: nat)
    requires w in g.pending && copy !in g.pending
    ensures Retention.Enabled(l, g, Retention.Resend(w, copy))
    ensures Retention.Do(l, g, Retention.Resend(w, copy)) == g.(pending := g.pending[copy := g.pending[w]])
  {
  }

  lemma MatchedCopy(s: State, p: Protocol.State, w: nat, copy: nat)
    requires Matched(s) && OnlyWorker(s.p, p, copy) && w in s.g.pending
    requires Sending(Protocol.WorkerAt(p, copy)) && PendingOf(Protocol.WorkerAt(p, copy)) == s.g.pending[w]
    ensures Matched(State(p, s.g.(pending := s.g.pending[copy := s.g.pending[w]])))
  {
    hide SameChain;
  }

  lemma MirrorSend(c: Protocol.Config, s: State, step: Step)
    requires step.Work? && Protocol.Enabled(c, s.p, step.step) && step.step.Send?
    ensures Mirror(c, s, step) == [Retention.Resend(step.step.w, step.step.command)]
  {
    hide Protocol.Enabled;
  }

  lemma SendKeeps(c: Protocol.Config, l: Retention.Limits, s: State, step: Step)
    requires Inv(c, l, s) && step.Work? && Enabled(c, l, s, step) && step.step.Send?
    ensures Inv(c, l, Do(c, l, s, step)) && Retention.IsRun(l, s.g, MirrorOf(c, l, s, step))
  {
    hide *;
    var w, copy := step.step.w, step.step.command;
    DoWork(c, l, s, step);
    MirrorIs(c, l, s, step);
    MirrorSend(c, s, step);
    InvParts(c, l, s);
    WorkReachable(c, s.p, step.step);
    SendStep(c, s.p, step.step);
    SendersMatch(s, w);
    SendersMatch(s, copy);
    ResendDoes(l, s.g, w, copy);
    TendReachable(l, s.g, Retention.Resend(w, copy));
    OneAfter(l, s.g, Retention.Resend(w, copy));
    MatchedCopy(s, Protocol.Do(c, s.p, step.step), w, copy);
    InvParts(c, l, Do(c, l, s, step));
  }

  // ---- Everything else ----

  lemma TendStep(l: Retention.Limits, g: Retention.State, step: Retention.Step)
    requires Retention.Enabled(l, g, step) && Tending(step)
    ensures var after := Retention.Do(l, g, step);
            after.chain == g.chain && after.store == g.store && after.pending == g.pending
  {
  }

  lemma MatchedTend(s: State, g: Retention.State)
    requires Matched(s) && g.chain == s.g.chain && g.store == s.g.store && g.pending == s.g.pending
    ensures Matched(s.(g := g))
  {
    hide SameChain;
  }

  lemma TendKeeps(c: Protocol.Config, l: Retention.Limits, s: State, step: Step)
    requires Inv(c, l, s) && step.Tend? && Enabled(c, l, s, step)
    ensures Inv(c, l, Do(c, l, s, step))
  {
    DoTend(c, l, s, step);
    hide *;
    InvParts(c, l, s);
    TendStep(l, s.g, step.tend);
    TendReachable(l, s.g, step.tend);
    MatchedTend(s, Retention.Do(l, s.g, step.tend));
    InvParts(c, l, Do(c, l, s, step));
  }

  lemma DoTend(c: Protocol.Config, l: Retention.Limits, s: State, step: Step)
    requires step.Tend? && Enabled(c, l, s, step)
    ensures Tending(step.tend) && Retention.Enabled(l, s.g, step.tend)
    ensures Do(c, l, s, step) == s.(g := Retention.Do(l, s.g, step.tend))
  {
    hide Retention.Enabled, Retention.Do, Tending;
  }

  lemma Kinds(step: Protocol.Step)
    ensures Plain(step) || Preparing(step) || Committing(step) || step.Send?
  {
  }

  /** Every step keeps the two machines in step; what a worker does, the retention machine can follow. */
  lemma StepKeeps(c: Protocol.Config, l: Retention.Limits, s: State, step: Step)
    requires Inv(c, l, s) && Enabled(c, l, s, step)
    ensures Inv(c, l, Do(c, l, s, step))
    ensures step.Work? ==> Retention.IsRun(l, s.g, MirrorOf(c, l, s, step))
  {
    hide *;
    if step.Tend? {
      TendKeeps(c, l, s, step);
    } else {
      Kinds(step.step);
      if Plain(step.step) {
        PlainKeeps(c, l, s, step);
      } else if Preparing(step.step) {
        PrepareKeeps(c, l, s, step);
      } else if Committing(step.step) {
        CasKeeps(c, l, s, step);
      } else {
        SendKeeps(c, l, s, step);
      }
    }
  }

  lemma {:induction false} RunKeeps(c: Protocol.Config, l: Retention.Limits, s: State, steps: seq<Step>)
    requires Inv(c, l, s) && IsRun(c, l, s, steps)
    ensures Inv(c, l, Reach(c, l, s, steps))
    decreases |steps|
  {
    hide Inv, Enabled, Do;
    if steps != [] {
      StepKeeps(c, l, s, steps[0]);
      RunKeeps(c, l, Do(c, l, s, steps[0]), steps[1..]);
    }
  }

  ghost predicate Reachable(c: Protocol.Config, l: Retention.Limits, s: State) {
    c.chunk > 0 && exists steps: seq<Step> :: IsRun(c, l, START, steps) && Reach(c, l, START, steps) == s
  }

  lemma StartInv(c: Protocol.Config, l: Retention.Limits)
    requires c.chunk > 0
    ensures Inv(c, l, START)
  {
    assert Protocol.IsRun(c, Protocol.START, []) && Protocol.Reach(c, Protocol.START, []) == Protocol.START;
    assert Retention.IsRun(l, Retention.START, []) && Retention.Reach(l, Retention.START, []) == Retention.START;
  }

  lemma ReachableInv(c: Protocol.Config, l: Retention.Limits, s: State)
    requires Reachable(c, l, s)
    ensures Inv(c, l, s)
  {
    var steps :| IsRun(c, l, START, steps) && Reach(c, l, START, steps) == s;
    StartInv(c, l);
    hide Inv, IsRun, Reach;
    RunKeeps(c, l, START, steps);
  }

  // ---- Theorems ----

  /** While workers commit and GC deletes, the live manifest, and every other that is retained, is present
      with every split, bitmap, delta, dead-letter and Lance file it references. */
  lemma CommittedObjectsPresent(c: Protocol.Config, l: Retention.Limits, s: State, i: nat)
    requires Reachable(c, l, s) && i < |s.p.history|
    requires i == |s.p.history| - 1 || (i < |s.g.chain| && Retention.RetainedNow(l, s.g, i))
    ensures s.p.history[i].path in s.g.objects && Refs(s.p.history[i].manifest) <= s.g.objects
  {
    hide *;
    ReachableInv(c, l, s);
    InvParts(c, l, s);
    ChainAt(s, i);
    RetentionSafety.RetainedNeverDeleted(l, s.g, i);
  }

  lemma ChainAt(s: State, i: nat)
    requires Matched(s) && i < |s.p.history|
    ensures |s.g.chain| == |s.p.history| && s.g.chain[i] == Entry(s.p.history[i].path, s.p.history[i].manifest)
  {
  }

  /** A worker that builds on the live manifest finds everything that manifest references, whatever GC
      has deleted. */
  lemma LiveParentReadable(c: Protocol.Config, l: Retention.Limits, s: State, w: nat)
    requires Reachable(c, l, s) && Protocol.WorkerAt(s.p, w).parent.Some?
    requires Protocol.WorkerAt(s.p, w).parent.value.manifest.version == |s.p.history|
    ensures Refs(Protocol.WorkerAt(s.p, w).parent.value.manifest) <= s.g.objects
  {
    hide *;
    ReachableInv(c, l, s);
    InvParts(c, l, s);
    ParentMatches(c, s, w);
    if s.p.history == [] {
      NoParentRefs(s);
    } else {
      var n := |s.p.history| - 1;
      ChainAt(s, n);
      LastIsParent(s);
      RetentionSafety.RetainedNeverDeleted(l, s.g, n);
    }
  }

  lemma NoParentRefs(s: State)
    requires Matched(s) && s.p.history == []
    ensures |s.g.chain| == 0 && Refs(RetentionSafety.ParentAt(s.g, 0)) == {}
  {
    RetentionSafety.NoRefs();
  }

  lemma LastIsParent(s: State)
    requires Matched(s) && s.p.history != []
    ensures |s.g.chain| == |s.p.history|
    ensures RetentionSafety.ParentAt(s.g, |s.g.chain|) == s.g.chain[|s.g.chain| - 1].manifest
  {
  }

  /** No trim cuts a record that the live manifest has not applied, whatever commits and deletes go on. */
  lemma UnappliedNotTrimmed(c: Protocol.Config, l: Retention.Limits, s: State, partition: nat)
    requires Reachable(c, l, s)
    ensures UpTo(s.g.logStarts, partition) <= UpTo(ProtocolTheorems.LiveManifest(s.p).applied, partition)
  {
    hide *;
    ReachableInv(c, l, s);
    InvParts(c, l, s);
    LiveBounds(l, s, partition);
  }

  lemma LiveBounds(l: Retention.Limits, s: State, partition: nat)
    requires RetentionSafety.Reachable(l, s.g) && Matched(s)
    ensures UpTo(s.g.logStarts, partition) <= UpTo(ProtocolTheorems.LiveManifest(s.p).applied, partition)
  {
    hide RetentionSafety.Reachable;
    RetentionSafety.ReachableInv(l, s.g);
    if s.p.history != [] {
      ChainAt(s, |s.p.history| - 1);
      NoneAfter(l, s.g);
      RetentionSafety.TrimSafe(l, s.g, [], |s.g.chain| - 1, partition);
    }
  }

  /** And all the while the collection agrees with the stream it consumed. */
  lemma VerifiesAndReads(c: Protocol.Config, l: Retention.Limits, s: State)
    requires Reachable(c, l, s)
    ensures ProtocolTheorems.Agrees(
              ProtocolTheorems.LiveManifest(s.p), s.p.index, StreamFold(c.rules, Consumed(s.p.history)))
    ensures Refs(ProtocolTheorems.LiveManifest(s.p)) <= s.g.objects
  {
    hide *;
    ReachableInv(c, l, s);
    InvParts(c, l, s);
    ProtocolTheorems.CollectionVerifies(c, s.p);
    LivePresent(l, s);
  }

  lemma LivePresent(l: Retention.Limits, s: State)
    requires RetentionSafety.Reachable(l, s.g) && Matched(s)
    ensures Refs(ProtocolTheorems.LiveManifest(s.p)) <= s.g.objects
  {
    hide RetentionSafety.Reachable, Refs;
    if s.p.history == [] {
      RetentionSafety.NoRefs();
    } else {
      var n := |s.p.history| - 1;
      ChainAt(s, n);
      RetentionSafety.RetainedNeverDeleted(l, s.g, n);
    }
  }
}
