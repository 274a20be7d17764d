/** Commits, the clock, garbage collection and stream trims on one collection, in any interleaving
    (crates/loams-collection/src/gc.rs, trim.rs; pass 3 of crates/loams-log/src/gc.rs; the freshness
    deadline of `PointerCas::run`). */
module Retention {
  import opened Prelude
  import opened Splits
  import opened Offsets
  import opened Commits
  import opened PkDeltas
  import opened Retained

  /** Retention settings, and how old an object must be before GC may delete it. */
  datatype Limits = Limits(settings: Settings, grace: nat)

  /** A stored manifest whose CAS may still be on its way; `started` is when its commit began. */
  datatype Pending = Pending(path: Path, started: nat)

  /** A GC run: it has read the clock; then the pointer and the clock again; then it has listed the
      manifests; then it knows what to keep, and deletes. */
  datatype Gc =
    | Began(now: nat)
    | Rooted(now: nat, live: nat, clock: nat)
    | Listed(now: nat, live: nat, clock: nat, listed: set<Path>)
    | Deleting(now: nat, keep: set<Path>)

  /** A trim: it has read the pointer and the clock and walks down the chain, one manifest at a time;
      then it knows how far to trim. */
  datatype Trim = Walking(live: nat, clock: nat, at: nat) | Bounded(bounds: Applied)

  /** `times` and `store` remember every object and manifest ever written; `objects` are the ones
      present. `chain` is the committed manifests, `logStarts` how far each partition is trimmed. */
  datatype State = State(
    clock: nat, times: map<Path, nat>, objects: set<Path>, store: Store, chain: seq<Entry>,
    pending: map<nat, Pending>, gcs: map<nat, Gc>, trims: map<nat, Trim>, logStarts: Applied)

  const START: State := State(0, map[], {}, map[], [], map[], map[], map[], map[])

  datatype Step =
    | Tick(clock: nat)
    | PutObject(path: Path, time: nat)
    | PutManifest(w: nat, path: Path, time: nat, manifest: Manifest)
    | Commit(w: nat, maxAge: nat)
    | Resend(w: nat, copy: nat)
    | GiveUp(w: nat)
    | GcBegin(g: nat)
    | GcRoots(g: nat)
    | GcList(g: nat)
    | GcKeep(g: nat, keep: set<Path>)
    | GcDelete(g: nat, path: Path)
    | TrimRead(t: nat)
    | TrimNext(t: nat)
    | TrimStop(t: nat)
    | TrimPartition(t: nat, partition: nat)

  /** An object is old enough to be deleted, by `now`. */
  predicate Expired(c: Limits, s: State, path: Path, now: nat) {
    path in s.times && SaturatingAdd(s.times[path], c.grace) <= now
  }

  /** What `m` may reference when it is built on a chain of `v` commits, begun at `started`: what its
      parent references, and objects written since. */
  ghost predicate NewRefs(s: State, v: nat, started: nat, m: Manifest)
    requires v <= |s.chain|
  {
    forall o :: o in Refs(m) ==>
      || (v > 0 && o in Refs(s.chain[v - 1].manifest))
      || (o in s.times && s.times[o] >= started)
  }

  /** `m` is built on version `v`. */
  ghost predicate BuiltOn(s: State, v: nat, m: Manifest)
    requires v <= |s.chain|
  {
    && m.version == v + 1 && m.parentVersion == v
    && m.parent == (if v == 0 then None else Some(s.chain[v - 1].path))
    && (v > 0 ==> AppliedLe(s.chain[v - 1].manifest.applied, m.applied))
  }

  /** The oldest manifest a walk from the live one reaches. */
  ghost predicate OldestReached(c: Limits, s: State, i: nat)
    requires i < |s.chain|
  {
    && Reaches(s.objects, c.settings, s.clock, s.chain, |s.chain|, i)
    && (i > 0 ==> !Reaches(s.objects, c.settings, s.clock, s.chain, |s.chain|, i - 1))
  }

  /** The run's walk, from the pointer and the clock it read, reaches version `i + 1`. */
  ghost predicate GcReaches(c: Limits, s: State, gc: Gc, i: nat)
    requires gc.Rooted? || gc.Listed?
  {
    i < gc.live <= |s.chain| && Reaches(s.objects, c.settings, gc.clock, s.chain, gc.live, i)
  }

  /** The walk may go on below version `trim.at + 1`: that manifest keeps its parent, which is there, or
      is gone and still in the cache of manifests. */
  ghost predicate MayGoOn(c: Limits, s: State, trim: Trim)
    requires trim.Walking?
  {
    && 0 < trim.at < trim.live <= |s.chain|
    && KeepsParent(c.settings, trim.clock, s.chain, trim.live, trim.at)
  }

  /** The walk must go on: the parent is there. */
  ghost predicate GoesOn(c: Limits, s: State, trim: Trim)
    requires trim.Walking?
  {
    MayGoOn(c, s, trim) && s.chain[trim.at - 1].path in s.objects
  }

  ghost predicate Enabled(c: Limits, s: State, step: Step) {
    match step
    case Tick(clock) => s.clock <= clock < U64_MAX
    case PutObject(path, _) => path !in s.times
    case PutManifest(w, path, time, m) =>
      && w !in s.pending && path !in s.times && m.createdAt <= time && m.parentVersion <= |s.chain|
      && BuiltOn(s, m.parentVersion, m) && NewRefs(s, m.parentVersion, m.createdAt, m)
    case Commit(w, maxAge) =>
      && w in s.pending && s.pending[w].path in s.store && maxAge < c.grace
      && s.store[s.pending[w].path].parentVersion == |s.chain|
      && s.clock <= SaturatingAdd(s.pending[w].started, maxAge)
    case Resend(w, copy) => w in s.pending && copy !in s.pending
    case GiveUp(w) => w in s.pending
    case GcBegin(g) => g !in s.gcs
    case GcRoots(g) => g in s.gcs && s.gcs[g].Began?
    case GcList(g) => g in s.gcs && s.gcs[g].Rooted?
    case GcKeep(g, keep) =>
      && g in s.gcs && s.gcs[g].Listed?
      && (forall i: nat :: GcReaches(c, s, s.gcs[g], i) ==>
            s.chain[i].path in keep && Refs(s.chain[i].manifest) <= keep)
      && (forall p :: p in s.gcs[g].listed && p in s.objects && p in s.store ==> Refs(s.store[p]) <= keep)
    case GcDelete(g, path) =>
      g in s.gcs && s.gcs[g].Deleting? && path !in s.gcs[g].keep && Expired(c, s, path, s.gcs[g].now)
    case TrimRead(t) => s.chain != []
    case TrimNext(t) => t in s.trims && s.trims[t].Walking? && MayGoOn(c, s, s.trims[t])
    case TrimStop(t) =>
      t in s.trims && s.trims[t].Walking? && s.trims[t].at < |s.chain| && !GoesOn(c, s, s.trims[t])
    case TrimPartition(t, _) => t in s.trims && s.trims[t].Bounded?
  }

  ghost function Do(c: Limits, s: State, step: Step): State
    requires Enabled(c, s, step)
  {
    match step
    case Tick(clock) => s.(clock := clock)
    case PutObject(path, time) => s.(times := s.times[path := time], objects := s.objects + {path})
    case PutManifest(w, path, time, m) =>
      s.(
        times := s.times[path := time], objects := s.objects + {path}, store := s.store[path := m],
        pending := s.pending[w := Pending(path, m.createdAt)])
    case Commit(w, _) =>
      var path := s.pending[w].path;
      s.(chain := s.chain + [Entry(path, s.store[path])])
    case Resend(w, copy) => s.(pending := s.pending[copy := s.pending[w]])
    case GiveUp(w) => s.(pending := s.pending - {w})
    case GcBegin(g) => s.(gcs := s.gcs[g := Began(s.clock)])
    case GcRoots(g) => s.(gcs := s.gcs[g := Rooted(s.gcs[g].now, |s.chain|, s.clock)])
    case GcList(g) =>
      s.(gcs := s.gcs[g := Listed(s.gcs[g].now, s.gcs[g].live, s.gcs[g].clock, s.objects * s.store.Keys)])
    case GcKeep(g, keep) => s.(gcs := s.gcs[g := Deleting(s.gcs[g].now, keep)])
    case GcDelete(_, path) => s.(objects := s.objects - {path})
    case TrimRead(t) => s.(trims := s.trims[t := Walking(|s.chain|, s.clock, |s.chain| - 1)])
    case TrimNext(t) => s.(trims := s.trims[t := s.trims[t].(at := s.trims[t].at - 1)])
    case TrimStop(t) => s.(trims := s.trims[t := Bounded(s.chain[s.trims[t].at].manifest.applied)])
    case TrimPartition(t, partition) =>
      var bound := UpTo(s.trims[t].bounds, partition);
      s.(logStarts := if bound > UpTo(s.logStarts, partition) then s.logStarts[partition := bound] else s.logStarts)
  }

  ghost predicate IsRun(c: Limits, s: State, steps: seq<Step>)
    decreases |steps|
  {
    steps == [] || (Enabled(c, s, steps[0]) && IsRun(c, Do(c, s, steps[0]), steps[1..]))
  }

  ghost function Reach(c: Limits, s: State, steps: seq<Step>): State
    requires IsRun(c, s, steps)
    decreases |steps|
  {
    if steps == [] then s else Reach(c, Do(c, s, steps[0]), steps[1..])
  }

  // ---- The invariant ----

  /** Version `i + 1` is retained now. */
  ghost predicate RetainedNow(c: Limits, s: State, i: nat)
    requires i < |s.chain|
  {
    Retains(c.settings, s.clock, s.chain, |s.chain|, i)
  }

  /** What was deleted was old. */
  ghost predicate GoneIsOld(c: Limits, s: State) {
    forall o :: o in s.times && o !in s.objects ==> Expired(c, s, o, s.clock)
  }

  ghost predicate KnownPaths(s: State) {
    && s.objects <= s.times.Keys && s.store.Keys <= s.times.Keys
    && (forall p :: p in s.store ==> Refs(s.store[p]) <= s.times.Keys && Descends(s.store[p]))
  }

  ghost predicate RetainedPresent(c: Limits, s: State) {
    forall i: nat :: i < |s.chain| && RetainedNow(c, s, i) ==> s.chain[i].path in s.objects
  }

  /** Every committed manifest still present has all it references. */
  ghost predicate ManifestsWhole(s: State) {
    forall i :: 0 <= i < |s.chain| && s.chain[i].path in s.objects ==> Refs(s.chain[i].manifest) <= s.objects
  }

  ghost predicate PendingOk(s: State, p: Pending) {
    && p.path in s.store && p.path in s.times && s.times[p.path] >= p.started
    && var m := s.store[p.path];
       && m.parentVersion <= |s.chain|
       && BuiltOn(s, m.parentVersion, m) && NewRefs(s, m.parentVersion, p.started, m)
  }

  /** `path` is kept by the run, or too young for it. */
  ghost predicate Spared(c: Limits, s: State, now: nat, keep: set<Path>, path: Path) {
    path in keep || !Expired(c, s, path, now)
  }

  ghost predicate SparesRefs(c: Limits, s: State, now: nat, keep: set<Path>, m: Manifest) {
    forall o :: o in Refs(m) ==> Spared(c, s, now, keep, o)
  }

  /** What `m` references was referenced by version `live` too, or is too young for the run. */
  ghost predicate RefsSince(c: Limits, s: State, now: nat, live: nat, m: Manifest)
    requires live <= |s.chain|
  {
    forall o :: o in Refs(m) ==> (live > 0 && o in Refs(s.chain[live - 1].manifest)) || !Expired(c, s, o, now)
  }

  /** The run read version `live`; everything committed since is too young for it, or was referenced
      then. */
  ghost predicate RootedOk(c: Limits, s: State, now: nat, live: nat, clock: nat) {
    && live <= |s.chain| && now <= clock <= s.clock
    && (forall i :: live <= i < |s.chain| ==> !Expired(c, s, s.chain[i].path, now))
    && (forall i :: live <= i < |s.chain| ==> RefsSince(c, s, now, live, s.chain[i].manifest))
  }

  ghost predicate GcOk(c: Limits, s: State, gc: Gc) {
    && gc.now <= s.clock
    && match gc
       case Began(_) => true
       case Rooted(now, live, clock) => RootedOk(c, s, now, live, clock)
       case Listed(now, live, clock, listed) =>
         && RootedOk(c, s, now, live, clock)
         && (forall i :: 0 <= i < live && s.chain[i].path in s.objects ==> s.chain[i].path in listed)
       case Deleting(now, keep) =>
         && (forall i :: 0 <= i < |s.chain| && s.chain[i].path in s.objects ==>
               SparesRefs(c, s, now, keep, s.chain[i].manifest))
         && (forall i: nat :: i < |s.chain| && RetainedNow(c, s, i) ==>
               Spared(c, s, now, keep, s.chain[i].path))
  }

  ghost predicate AppliedGrowsAlong(chain: seq<Entry>) {
    forall i, j :: 0 <= i <= j < |chain| ==> AppliedLe(chain[i].manifest.applied, chain[j].manifest.applied)
  }

  /** No retained manifest needs an offset below `bounds`. */
  ghost predicate BoundsOk(c: Limits, s: State, bounds: Applied) {
    forall i: nat, p: nat :: i < |s.chain| && RetainedNow(c, s, i) ==>
      UpTo(bounds, p) <= UpTo(s.chain[i].manifest.applied, p)
  }

  ghost predicate TrimOk(c: Limits, s: State, trim: Trim) {
    match trim
    case Walking(live, clock, at) => at < live <= |s.chain| && clock <= s.clock
    case Bounded(bounds) => BoundsOk(c, s, bounds)
  }

  ghost predicate TrimsOk(c: Limits, s: State) {
    && (forall t :: t in s.trims ==> TrimOk(c, s, s.trims[t])) && BoundsOk(c, s, s.logStarts)
    && (s.chain == [] ==> s.trims == map[] && s.logStarts == map[])
  }

  ghost predicate ChainInv(s: State) {
    Linked(s.chain) && Stored(s.store, s.chain) && AppliedGrowsAlong(s.chain)
  }

  ghost predicate PendingsOk(s: State) {
    forall w :: w in s.pending ==> PendingOk(s, s.pending[w])
  }

  ghost predicate GcsOk(c: Limits, s: State) {
    forall g :: g in s.gcs ==> GcOk(c, s, s.gcs[g])
  }

  ghost predicate Inv(c: Limits, s: State) {
    && s.clock < U64_MAX && ChainInv(s) && KnownPaths(s) && GoneIsOld(c, s) && RetainedPresent(c, s)
    && ManifestsWhole(s) && PendingsOk(s) && GcsOk(c, s) && TrimsOk(c, s)
  }
}
