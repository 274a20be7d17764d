/** What garbage collection and trims get done (crates/loams-collection/src/gc.rs, trim.rs): from any
    state a run can reach, a GC run that keeps exactly what `collection_objects` keeps frees what
    nothing needs, and a trim cuts the log up to the oldest retained manifest. */
module RetentionProgress {
  import opened Prelude
  import opened Splits
  import opened Offsets
  import opened PkDeltas
  import opened Retained
  import opened Retention
  import opened RetentionSafety

  /** Some manifest that is present references `o`. */
  ghost predicate Referenced(s: State, o: Path) {
    exists p :: p in s.objects && p in s.store && o in Refs(s.store[p])
  }

  ghost predicate RetainedManifest(c: Limits, s: State, o: Path) {
    exists i: nat :: i < |s.chain| && s.chain[i].path == o && RetainedNow(c, s, i)
  }

  /** `o` is present, no manifest that is present references it, and it is not a retained manifest. */
  ghost predicate Garbage(c: Limits, s: State, o: Path) {
    o in s.objects && !Referenced(s, o) && !RetainedManifest(c, s, o)
  }

  /** The clock can get past the age at which `o` may be deleted. */
  ghost predicate Mortal(c: Limits, s: State, o: Path) {
    o in s.times && s.times[o] + c.grace < U64_MAX
  }

  // ---- What a run keeps ----

  ghost function Listing(paths: set<Path>): (r: seq<Path>)
    ensures forall p :: p in r <==> p in paths
  {
    if paths == {} then []
    else
      var p :| p in paths;
      Listing(paths - {p}) + [p]
  }

  /** `walked` is what the walk of a run at `clock` reaches, and nothing it reaches is left out. */
  ghost predicate WalkOf(c: Limits, s: State, clock: nat, walked: seq<Entry>) {
    && |walked| <= |s.chain| && StoredEntries(s.store, walked)
    && (if s.chain == [] then walked == []
        else IsRetainedChain(s.store, s.objects, c.settings, clock, s.chain[|s.chain| - 1], walked))
    && (forall d :: 0 <= d < |walked| ==> walked[d] == s.chain[|s.chain| - 1 - d])
    && (forall i: nat :: i < |s.chain| ==>
          (Reaches(s.objects, c.settings, clock, s.chain, |s.chain|, i) <==> |s.chain| - |walked| <= i))
  }

  lemma InvFacts(c: Limits, s: State)
    requires Inv(c, s)
    ensures Linked(s.chain) && Stored(s.store, s.chain) && RetainedPresent(c, s) && StoreDescends(s.store)
    ensures s.objects <= s.times.Keys && s.clock < U64_MAX
  {
    InvParts(c, s);
    hide Linked, Stored, RetainedPresent, Refs;
  }

  lemma LiveReached(c: Limits, s: State, clock: nat)
    requires s.chain != []
    ensures Reaches(s.objects, c.settings, clock, s.chain, |s.chain|, |s.chain| - 1)
  {
  }

  /** A walk from the live manifest finds a retained chain. */
  lemma Walks(store: Store, present: set<Path>, settings: Settings, clock: nat, live: Entry) returns (r: seq<Entry>)
    requires StoreDescends(store) && Descends(live.manifest)
    requires RetainedFrom(store, present, settings, clock, 1, live).Ok?
    ensures RetainedFrom(store, present, settings, clock, 1, live) == Ok(r)
    ensures IsRetainedChain(store, present, settings, clock, live, r)
  {
    r := RetainedFrom(store, present, settings, clock, 1, live).value;
    hide StoreDescends, RetainedFrom, IsRetainedChain;
    assert [live][..0] == [];
    AfterNone(RetainedFrom(store, present, settings, clock, 1, live));
    WalkIsRetained(store, present, settings, clock, [live]);
  }

  lemma WalkAt(c: Limits, s: State, clock: nat) returns (walked: seq<Entry>)
    requires Inv(c, s)
    ensures WalkOf(c, s, clock, walked)
  {
    hide *;
    InvFacts(c, s);
    if s.chain == [] {
      walked := [];
      NoWalk(c, s, clock);
    } else {
      var n := |s.chain|;
      ChainAt(s.store, s.chain, n - 1);
      LiveReached(c, s, clock);
      WalkIsPrefix(s.store, s.objects, c.settings, clock, s.chain, n, n - 1);
      walked := Walks(s.store, s.objects, c.settings, clock, s.chain[n - 1]);
      forall d | 0 <= d < |walked| ensures walked[d].path in s.store && s.store[walked[d].path] == walked[d].manifest {
        ChainAt(s.store, s.chain, n - 1 - d);
      }
      forall i: nat | i < n
        ensures Reaches(s.objects, c.settings, clock, s.chain, n, i) <==> n - |walked| <= i
      {
        if n - |walked| <= i {
          ReachesNewer(s.objects, c.settings, clock, s.chain, n, n - |walked|, i);
        } else if Reaches(s.objects, c.settings, clock, s.chain, n, i) {
          ReachesNewer(s.objects, c.settings, clock, s.chain, n, i, n - |walked| - 1);
        }
      }
      IsWalk(c, s, clock, walked);
    }
  }

  lemma NoWalk(c: Limits, s: State, clock: nat)
    requires s.chain == []
    ensures WalkOf(c, s, clock, [])
  {
  }

  lemma IsWalk(c: Limits, s: State, clock: nat, walked: seq<Entry>)
    requires s.chain != [] && |walked| <= |s.chain|
    requires IsRetainedChain(s.store, s.objects, c.settings, clock, s.chain[|s.chain| - 1], walked)
    requires forall d :: 0 <= d < |walked| ==> walked[d] == s.chain[|s.chain| - 1 - d]
    requires forall d :: 0 <= d < |walked| ==>
               walked[d].path in s.store && s.store[walked[d].path] == walked[d].manifest
    requires forall i: nat :: i < |s.chain| ==>
               (Reaches(s.objects, c.settings, clock, s.chain, |s.chain|, i) <==> |s.chain| - |walked| <= i)
    ensures WalkOf(c, s, clock, walked)
  {
    hide IsRetainedChain, Reaches;
  }

  /** What a walk at a later clock reaches is retained, present, and what the store holds. */
  lemma ReachedPresent(c: Limits, s: State, clock: nat, i: nat)
    requires Inv(c, s) && s.clock <= clock && i < |s.chain|
    requires Reaches(s.objects, c.settings, clock, s.chain, |s.chain|, i)
    ensures s.chain[i].path in s.objects && s.chain[i].path in s.store
    ensures s.store[s.chain[i].path] == s.chain[i].manifest && RetainedNow(c, s, i)
  {
    InvFacts(c, s);
    hide Inv, Linked;
    RetentionShrinks(c.settings, s.chain, s.clock, |s.chain|, clock, |s.chain|, i);
    assert RetainedNow(c, s, i);
  }

  /** What a run at `clock` must keep: what its walk reaches with what it references, and what the
      present manifests reference. */
  ghost predicate KeepsEnough(c: Limits, s: State, clock: nat, keep: set<Path>) {
    && (forall i: nat :: i < |s.chain| && Reaches(s.objects, c.settings, clock, s.chain, |s.chain|, i) ==>
          s.chain[i].path in keep && Refs(s.chain[i].manifest) <= keep)
    && (forall p :: p in s.objects && p in s.store ==> Refs(s.store[p]) <= keep)
  }

  lemma ExactIsEnough(c: Limits, s: State, clock: nat, walked: seq<Entry>, listed: seq<Path>, keep: set<Path>)
    requires WalkOf(c, s, clock, walked) && (forall p :: p in listed <==> p in s.objects * s.store.Keys)
    requires KeepsExactly(s.store, s.objects, walked, listed, keep)
    ensures KeepsEnough(c, s, clock, keep)
  {
    hide Refs, Reaches, IsRetainedChain, StoredEntries, WalkedKeeps, ListedKeeps;
    var n := |s.chain|;
    forall i: nat | i < n && Reaches(s.objects, c.settings, clock, s.chain, n, i)
      ensures s.chain[i].path in keep && Refs(s.chain[i].manifest) <= keep
    {
      assert walked[n - 1 - i] == s.chain[i];
      WalkedKept(walked, n - 1 - i);
    }
    forall p | p in s.objects && p in s.store ensures Refs(s.store[p]) <= keep {
      assert p in listed;
      ListedKept(s.store, s.objects, listed, p);
    }
  }

  lemma WalkedKept(walked: seq<Entry>, d: nat)
    requires d < |walked|
    ensures WalkedKeeps(walked, walked[d].path)
    ensures forall o :: o in Refs(walked[d].manifest) ==> WalkedKeeps(walked, o)
  {
    hide Refs;
  }

  lemma ListedKept(store: Store, present: set<Path>, listed: seq<Path>, p: Path)
    requires p in listed && p in store && p in present
    ensures forall o :: o in Refs(store[p]) ==> ListedKeeps(store, present, listed, o)
  {
    hide Refs;
  }

  /** Garbage is not kept. */
  lemma GarbageNotKept(
    c: Limits, s: State, clock: nat, walked: seq<Entry>, listed: seq<Path>, keep: set<Path>, o: Path)
    requires Inv(c, s) && s.clock <= clock && Garbage(c, s, o)
    requires WalkOf(c, s, clock, walked) && (forall p :: p in listed <==> p in s.objects * s.store.Keys)
    requires KeepsExactly(s.store, s.objects, walked, listed, keep)
    ensures o !in keep
  {
    hide Inv, Refs, Reaches, IsRetainedChain, StoredEntries;
    if WalkedKeeps(walked, o) {
      var d :| 0 <= d < |walked| && (walked[d].path == o || o in Refs(walked[d].manifest));
      ReachedPresent(c, s, clock, |s.chain| - 1 - d);
    }
  }

  // ---- The run ----

  /** A GC run at `clock` that keeps `keep` and deletes `o`. */
  ghost function GcRun(g: nat, clock: nat, keep: set<Path>, o: Path): seq<Step> {
    [Tick(clock), GcBegin(g), GcRoots(g), GcList(g), GcKeep(g, keep), GcDelete(g, o)]
  }

  /** `t` is `s` at `clock`, with run `g` at `gc`. */
  ghost predicate Running(s: State, t: State, clock: nat, g: nat, gc: Gc) {
    t == s.(clock := clock, gcs := t.gcs) && g in t.gcs && t.gcs[g] == gc
  }

  /** `t` is `s` at `clock` without `o`, whatever its GC runs. */
  ghost predicate Freed(s: State, t: State, clock: nat, o: Path) {
    t == s.(clock := clock, gcs := t.gcs, objects := s.objects - {o})
  }

  lemma Begins(c: Limits, s: State, g: nat, clock: nat)
    requires s.clock <= clock < U64_MAX && g !in s.gcs
    ensures Enabled(c, s, Tick(clock)) && Enabled(c, Do(c, s, Tick(clock)), GcBegin(g))
    ensures Running(s, Do(c, Do(c, s, Tick(clock)), GcBegin(g)), clock, g, Began(clock))
  {
  }

  lemma Roots(c: Limits, s: State, t: State, g: nat, clock: nat)
    requires Running(s, t, clock, g, Began(clock))
    ensures Enabled(c, t, GcRoots(g))
    ensures Running(s, Do(c, t, GcRoots(g)), clock, g, Rooted(clock, |s.chain|, clock))
  {
  }

  ghost function ListedGc(s: State, clock: nat): Gc {
    Listed(clock, |s.chain|, clock, s.objects * s.store.Keys)
  }

  lemma Lists(c: Limits, s: State, t: State, g: nat, clock: nat)
    requires Running(s, t, clock, g, Rooted(clock, |s.chain|, clock))
    ensures Enabled(c, t, GcList(g)) && Running(s, Do(c, t, GcList(g)), clock, g, ListedGc(s, clock))
  {
  }

  lemma Keeps(c: Limits, s: State, t: State, g: nat, clock: nat, keep: set<Path>)
    requires Running(s, t, clock, g, ListedGc(s, clock)) && KeepsEnough(c, s, clock, keep)
    ensures Enabled(c, t, GcKeep(g, keep)) && Running(s, Do(c, t, GcKeep(g, keep)), clock, g, Deleting(clock, keep))
  {
    hide Refs, Reaches;
    forall i: nat | GcReaches(c, t, t.gcs[g], i) ensures t.chain[i].path in keep && Refs(t.chain[i].manifest) <= keep {
      assert Reaches(s.objects, c.settings, clock, s.chain, |s.chain|, i);
    }
  }

  lemma Deletes(c: Limits, s: State, t: State, g: nat, clock: nat, keep: set<Path>, o: Path)
    requires Running(s, t, clock, g, Deleting(clock, keep)) && o !in keep && Expired(c, s, o, clock)
    ensures Enabled(c, t, GcDelete(g, o)) && Freed(s, Do(c, t, GcDelete(g, o)), clock, o)
  {
  }

  lemma RunStep(c: Limits, s: State, step: Step, steps: seq<Step>)
    requires Enabled(c, s, step) && IsRun(c, Do(c, s, step), steps)
    ensures IsRun(c, s, [step] + steps) && Reach(c, s, [step] + steps) == Reach(c, Do(c, s, step), steps)
  {
    hide Enabled, Do;
    assert ([step] + steps)[1..] == steps;
  }

  lemma NoSteps(c: Limits, s: State)
    ensures IsRun(c, s, []) && Reach(c, s, []) == s
  {
  }

  /** The six steps, one after another. */
  lemma RunsGc(c: Limits, s: State, g: nat, clock: nat, keep: set<Path>, o: Path)
    requires s.clock <= clock < U64_MAX && g !in s.gcs && KeepsEnough(c, s, clock, keep)
    requires o !in keep && Expired(c, s, o, clock)
    ensures IsRun(c, s, GcRun(g, clock, keep, o))
    ensures Freed(s, Reach(c, s, GcRun(g, clock, keep, o)), clock, o)
  {
    hide *;
    Begins(c, s, g, clock);
    var s1 := Do(c, s, Tick(clock));
    var s2 := Do(c, s1, GcBegin(g));
    Roots(c, s, s2, g, clock);
    var s3 := Do(c, s2, GcRoots(g));
    Lists(c, s, s3, g, clock);
    var s4 := Do(c, s3, GcList(g));
    Keeps(c, s, s4, g, clock, keep);
    var s5 := Do(c, s4, GcKeep(g, keep));
    Deletes(c, s, s5, g, clock, keep, o);
    NoSteps(c, Do(c, s5, GcDelete(g, o)));
    RunStep(c, s5, GcDelete(g, o), []);
    RunStep(c, s4, GcKeep(g, keep), [GcDelete(g, o)] + []);
    RunStep(c, s3, GcList(g), [GcKeep(g, keep)] + ([GcDelete(g, o)] + []));
    RunStep(c, s2, GcRoots(g), [GcList(g)] + ([GcKeep(g, keep)] + ([GcDelete(g, o)] + [])));
    RunStep(c, s1, GcBegin(g), [GcRoots(g)] + ([GcList(g)] + ([GcKeep(g, keep)] + ([GcDelete(g, o)] + []))));
    var rest := [GcBegin(g)] + ([GcRoots(g)] + ([GcList(g)] + ([GcKeep(g, keep)] + ([GcDelete(g, o)] + []))));
    RunStep(c, s, Tick(clock), rest);
    GcRunIs(g, clock, keep, o);
  }

  lemma GcRunIs(g: nat, clock: nat, keep: set<Path>, o: Path)
    ensures var end := [GcList(g)] + ([GcKeep(g, keep)] + ([GcDelete(g, o)] + []));
            GcRun(g, clock, keep, o) == [Tick(clock)] + ([GcBegin(g)] + ([GcRoots(g)] + end))
  {
  }

  lemma {:induction false} FreshNumber(used: set<nat>) returns (g: nat)
    ensures forall x :: x in used ==> x < g
    decreases |used|
  {
    g := 0;
    if used != {} {
      var x :| x in used;
      var above := FreshNumber(used - {x});
      g := if above > x then above else x + 1;
      forall y | y in used ensures y < g {
        if y != x { assert y in used - {x}; }
      }
    }
  }

  // ---- Theorems ----

  /** `keep` is exactly what `collection_objects` keeps in `s` at `clock`. */
  ghost predicate ExactKeep(
    c: Limits, s: State, clock: nat, walked: seq<Entry>, listed: seq<Path>, keep: set<Path>)
  {
    && WalkOf(c, s, clock, walked) && (forall p :: p in listed <==> p in s.objects * s.store.Keys)
    && KeepsExactly(s.store, s.objects, walked, listed, keep)
  }

  /** `steps` are a GC run from `s` that keeps exactly what it must and deletes `o`. */
  ghost predicate ExactGcRun(c: Limits, s: State, steps: seq<Step>, o: Path) {
    IsRun(c, s, steps) && exists g, clock, walked, listed, keep ::
      steps == GcRun(g, clock, keep, o) && ExactKeep(c, s, clock, walked, listed, keep)
  }

  /** From any reachable state, a GC run that keeps exactly what `collection_objects` keeps frees any
      piece of garbage that the clock can outlive. */
  lemma GcFrees(c: Limits, s: State, o: Path) returns (steps: seq<Step>)
    requires Inv(c, s) && Garbage(c, s, o) && Mortal(c, s, o)
    ensures ExactGcRun(c, s, steps, o) && IsRun(c, s, steps)
    ensures s.clock <= Reach(c, s, steps).clock && Freed(s, Reach(c, s, steps), Reach(c, s, steps).clock, o)
  {
    hide *;
    InvFacts(c, s);
    var g := FreshNumber(s.gcs.Keys);
    var clock := Due(c, s, o);
    var walked := WalkAt(c, s, clock);
    var listed := Listing(s.objects * s.store.Keys);
    var keep := KeepOf(s.store, s.objects, walked, listed);
    WalkStored(c, s, clock, walked);
    KeepIsExact(s.store, s.objects, walked, listed);
    ExactIsEnough(c, s, clock, walked, listed, keep);
    GarbageNotKept(c, s, clock, walked, listed, keep, o);
    RunsGc(c, s, g, clock, keep, o);
    steps := GcRun(g, clock, keep, o);
    IsExact(c, s, g, clock, walked, listed, keep, o);
    FreedClock(s, Reach(c, s, steps), clock, o);
  }

  lemma IsExact(
    c: Limits, s: State, g: nat, clock: nat, walked: seq<Entry>, listed: seq<Path>, keep: set<Path>, o: Path)
    requires IsRun(c, s, GcRun(g, clock, keep, o)) && WalkOf(c, s, clock, walked)
    requires forall p :: p in listed <==> p in s.objects * s.store.Keys
    requires KeepsExactly(s.store, s.objects, walked, listed, keep)
    ensures ExactGcRun(c, s, GcRun(g, clock, keep, o), o)
  {
    hide IsRun, GcRun, WalkOf, KeepsExactly;
    assert ExactKeep(c, s, clock, walked, listed, keep);
  }

  lemma FreedClock(s: State, t: State, clock: nat, o: Path)
    requires Freed(s, t, clock, o)
    ensures t.clock == clock
  {
  }

  lemma WalkStored(c: Limits, s: State, clock: nat, walked: seq<Entry>)
    requires WalkOf(c, s, clock, walked)
    ensures StoredEntries(s.store, walked)
  {
  }

  lemma Due(c: Limits, s: State, o: Path) returns (clock: nat)
    requires Mortal(c, s, o) && s.clock < U64_MAX
    ensures s.clock <= clock < U64_MAX && Expired(c, s, o, clock)
  {
    var due := s.times[o] + c.grace;
    clock := if due > s.clock then due else s.clock;
  }
  lemma {:induction false} RunTimes(c: Limits, s: State, steps: seq<Step>, o: Path)
    requires IsRun(c, s, steps) && o in s.times
    ensures o in Reach(c, s, steps).times && Reach(c, s, steps).times[o] == s.times[o]
    decreases |steps|
  {
    if steps != [] {
      StepTimes(c, s, steps[0], o);
      hide Enabled, Do;
      RunTimes(c, Do(c, s, steps[0]), steps[1..], o);
    }
  }

  lemma StepTimes(c: Limits, s: State, step: Step, o: Path)
    requires Enabled(c, s, step) && o in s.times
    ensures o in Do(c, s, step).times && Do(c, s, step).times[o] == s.times[o]
  {
    hide Refs, Reaches;
  }

  /** What the clock cannot outlive is never deleted. */
  lemma ImmortalStays(c: Limits, s: State, steps: seq<Step>, o: Path)
    requires Inv(c, s) && IsRun(c, s, steps) && o in s.objects && !Mortal(c, s, o)
    ensures o in Reach(c, s, steps).objects
  {
    hide IsRun, Reach, Inv;
    InvFacts(c, s);
    RunKeeps(c, s, steps);
    RunTimes(c, s, steps, o);
    GoneIsExpired(c, Reach(c, s, steps), o);
  }

  lemma GoneIsExpired(c: Limits, s: State, o: Path)
    requires Inv(c, s) && o in s.times
    ensures s.clock < U64_MAX && (o in s.objects || Expired(c, s, o, s.clock))
  {
    hide Refs, ChainInv, KnownPaths, RetainedPresent, ManifestsWhole, PendingsOk, GcsOk, TrimsOk;
  }

  /** In every reachable state, a manifest that is not retained and that no present manifest references
      can be collected, and so can any other object of the kind, exactly when the clock can outlive it:
      one GC run that keeps no more than it must is enough. */
  lemma GarbageIsCollected(c: Limits, s: State, o: Path)
    requires Reachable(c, s) && Garbage(c, s, o)
    ensures (exists steps :: IsRun(c, s, steps) && o !in Reach(c, s, steps).objects) <==> Mortal(c, s, o)
    ensures Mortal(c, s, o) ==>
              exists steps :: ExactGcRun(c, s, steps, o) && Reach(c, s, steps).objects == s.objects - {o}
  {
    hide *;
    ReachableInv(c, s);
    if Mortal(c, s, o) {
      var steps := GcFrees(c, s, o);
      FreedIs(c, s, Reach(c, s, steps), Reach(c, s, steps).clock, o, o);
    } else {
      GarbagePresent(c, s, o);
      forall steps | IsRun(c, s, steps) ensures o in Reach(c, s, steps).objects {
        ImmortalStays(c, s, steps, o);
      }
    }
  }

  lemma GarbagePresent(c: Limits, s: State, o: Path)
    requires Garbage(c, s, o)
    ensures o in s.objects
  {
  }

  /** Of the manifests present, only the one at `path` references `o`. */
  ghost predicate OnlyReference(s: State, path: Path, o: Path) {
    && path in s.store && o in Refs(s.store[path])
    && forall p :: p in s.objects && p in s.store && o in Refs(s.store[p]) ==> p == path
  }

  lemma GarbageNext(c: Limits, s: State, t: State, clock: nat, path: Path, o: Path)
    requires s.clock <= clock && Freed(s, t, clock, path) && Garbage(c, s, path) && path in s.store
    requires o in s.objects && OnlyReference(s, path, o) && !RetainedManifest(c, s, o)
    ensures Garbage(c, t, o)
  {
    hide Refs;
    if RetainedManifest(c, t, o) {
      var i: nat :| i < |t.chain| && t.chain[i].path == o && RetainedNow(c, t, i);
      RetentionShrinks(c.settings, s.chain, s.clock, |s.chain|, clock, |s.chain|, i);
    }
  }

  lemma {:induction false} RunOn(c: Limits, s: State, a: seq<Step>, b: seq<Step>)
    requires IsRun(c, s, a) && IsRun(c, Reach(c, s, a), b)
    ensures IsRun(c, s, a + b) && Reach(c, s, a + b) == Reach(c, Reach(c, s, a), b)
    decreases |a|
  {
    hide Enabled, Do;
    if a == [] {
      assert a + b == b;
    } else {
      RunOn(c, Do(c, s, a[0]), a[1..], b);
      assert a + b == [a[0]] + (a[1..] + b);
      RunStep(c, s, a[0], a[1..] + b);
    }
  }

  /** A GC run that deletes the manifest at `path`, with `o` still there, and one that deletes `o`. */
  ghost predicate TwoRuns(c: Limits, s: State, first: seq<Step>, second: seq<Step>, path: Path, o: Path) {
    && ExactGcRun(c, s, first, path) && IsRun(c, s, first) && o in Reach(c, s, first).objects
    && ExactGcRun(c, Reach(c, s, first), second, o) && IsRun(c, s, first + second)
    && Reach(c, s, first + second).objects == s.objects - {path, o}
  }

  /** A manifest goes first and what only it referenced goes next: two GC runs, each keeping exactly what
      it must, free the manifest and then the object. */
  lemma TwoRunsFree(c: Limits, s: State, path: Path, o: Path)
    requires Reachable(c, s) && Garbage(c, s, path) && Mortal(c, s, path)
    requires o in s.objects && OnlyReference(s, path, o) && !RetainedManifest(c, s, o) && Mortal(c, s, o)
    ensures exists first, second :: TwoRuns(c, s, first, second, path, o)
  {
    hide *;
    ReachableInv(c, s);
    var first := GcFrees(c, s, path);
    var t := Reach(c, s, first);
    RunKeeps(c, s, first);
    FreedIs(c, s, t, t.clock, path, o);
    GarbageNext(c, s, t, t.clock, path, o);
    var second := GcFrees(c, t, o);
    var u := Reach(c, t, second);
    FreedIs(c, t, u, u.clock, o, path);
    RunOn(c, s, first, second);
    AreTwoRuns(c, s, first, second, path, o);
  }

  lemma AreTwoRuns(c: Limits, s: State, first: seq<Step>, second: seq<Step>, path: Path, o: Path)
    requires ExactGcRun(c, s, first, path) && IsRun(c, s, first) && ExactGcRun(c, Reach(c, s, first), second, o)
    requires IsRun(c, s, first + second) && o in Reach(c, s, first).objects
    requires Reach(c, s, first + second).objects == s.objects - {path, o}
    ensures TwoRuns(c, s, first, second, path, o)
  {
    hide ExactGcRun, IsRun, Reach;
  }

  lemma FreedIs(c: Limits, s: State, t: State, clock: nat, path: Path, o: Path)
    requires Freed(s, t, clock, path)
    ensures t.objects == s.objects - {path}
    ensures Mortal(c, t, o) == Mortal(c, s, o)
    ensures Garbage(c, s, path) && OnlyReference(s, path, o) ==> path != o && path in s.store
  {
    hide Refs;
  }

  // ---- Trims ----

  /** `u` is `s` with trim `t` at `trim`. */
  ghost predicate TrimAt(s: State, u: State, t: nat, trim: Trim) {
    u == s.(trims := u.trims) && t in u.trims && u.trims[t] == trim
  }

  lemma OneDown(c: Limits, s: State, u: State, t: nat, at: nat)
    requires TrimAt(s, u, t, Walking(|s.chain|, s.clock, at)) && 0 < at < |s.chain|
    requires KeepsParent(c.settings, s.clock, s.chain, |s.chain|, at)
    ensures Enabled(c, u, TrimNext(t))
    ensures TrimAt(s, Do(c, u, TrimNext(t)), t, Walking(|s.chain|, s.clock, at - 1))
  {
    hide KeepsParent;
  }

  /** A walk goes down to the oldest retained manifest, one manifest at a time. */
  lemma {:induction false} WalksDown(c: Limits, s: State, u: State, t: nat, at: nat, oldest: nat)
    returns (steps: seq<Step>)
    requires TrimAt(s, u, t, Walking(|s.chain|, s.clock, at)) && oldest <= at < |s.chain|
    requires Retains(c.settings, s.clock, s.chain, |s.chain|, oldest)
    ensures IsRun(c, u, steps)
    ensures TrimAt(s, Reach(c, u, steps), t, Walking(|s.chain|, s.clock, oldest))
    decreases at
  {
    if at == oldest {
      steps := [];
      NoSteps(c, u);
    } else {
      assert KeepsParent(c.settings, s.clock, s.chain, |s.chain|, at);
      hide *;
      OneDown(c, s, u, t, at);
      var rest := WalksDown(c, s, Do(c, u, TrimNext(t)), t, at - 1, oldest);
      RunStep(c, u, TrimNext(t), rest);
      steps := [TrimNext(t)] + rest;
    }
  }

  lemma ReadsTrim(c: Limits, s: State, t: nat)
    requires s.chain != []
    ensures Enabled(c, s, TrimRead(t))
    ensures TrimAt(s, Do(c, s, TrimRead(t)), t, Walking(|s.chain|, s.clock, |s.chain| - 1))
  {
  }

  lemma StopsTrim(c: Limits, s: State, u: State, t: nat, oldest: nat)
    requires oldest < |s.chain| && OldestReached(c, s, oldest)
    requires TrimAt(s, u, t, Walking(|s.chain|, s.clock, oldest))
    ensures Enabled(c, u, TrimStop(t))
    ensures TrimAt(s, Do(c, u, TrimStop(t)), t, Bounded(s.chain[oldest].manifest.applied))
  {
    if oldest > 0 && KeepsParent(c.settings, s.clock, s.chain, |s.chain|, oldest)
       && s.chain[oldest - 1].path in s.objects {
      ReachesDown(s.objects, c.settings, s.clock, s.chain, |s.chain|, oldest);
    }
  }

  /** `u` is `s` with partition `p` trimmed up to `bound`, if that is further on, whatever its trims. */
  ghost predicate TrimmedTo(s: State, u: State, p: nat, bound: nat) {
    && u == s.(trims := u.trims, logStarts := u.logStarts)
    && UpTo(u.logStarts, p) == (if bound > UpTo(s.logStarts, p) then bound else UpTo(s.logStarts, p))
    && forall q: nat :: q != p ==> UpTo(u.logStarts, q) == UpTo(s.logStarts, q)
  }

  lemma CutsLog(c: Limits, s: State, u: State, t: nat, bounds: Applied, p: nat)
    requires TrimAt(s, u, t, Bounded(bounds))
    ensures Enabled(c, u, TrimPartition(t, p))
    ensures TrimmedTo(s, Do(c, u, TrimPartition(t, p)), p, UpTo(bounds, p))
  {
  }

  lemma OldestRetains(c: Limits, s: State, oldest: nat)
    requires oldest < |s.chain| && OldestReached(c, s, oldest)
    ensures Retains(c.settings, s.clock, s.chain, |s.chain|, oldest)
  {
  }

  /** The oldest retained manifest of a collection that has any. */
  lemma OldestManifest(c: Limits, s: State) returns (oldest: nat)
    requires Reachable(c, s) && s.chain != []
    ensures oldest < |s.chain| && OldestReached(c, s, oldest)
    ensures forall i: nat :: i < |s.chain| ==> (RetainedNow(c, s, i) <==> oldest <= i)
  {
    hide Reachable, OldestReached, RetainedNow, RetainedFrom;
    TrimWalk(c, s);
    oldest := |s.chain|
              - |RetainedFrom(s.store, s.objects, c.settings, s.clock, 1, s.chain[|s.chain| - 1]).value|;
  }

  /** From any reachable state a trim can cut every partition up to the offset of the oldest retained
      manifest, and, by `TrimSafe`, no further. */
  lemma TrimCuts(c: Limits, s: State, p: nat)
    requires Reachable(c, s) && s.chain != []
    ensures exists steps: seq<Step>, oldest: nat ::
              && IsRun(c, s, steps) && oldest < |s.chain|
              && (forall i: nat :: i < |s.chain| ==> (RetainedNow(c, s, i) <==> oldest <= i))
              && TrimmedTo(s, Reach(c, s, steps), p, UpTo(s.chain[oldest].manifest.applied, p))
  {
    hide *;
    var oldest := OldestManifest(c, s);
    OldestRetains(c, s, oldest);
    ReadsTrim(c, s, 0);
    var s1 := Do(c, s, TrimRead(0));
    var down := WalksDown(c, s, s1, 0, |s.chain| - 1, oldest);
    var s2 := Reach(c, s1, down);
    StopsTrim(c, s, s2, 0, oldest);
    var s3 := Do(c, s2, TrimStop(0));
    CutsLog(c, s, s3, 0, s.chain[oldest].manifest.applied, p);
    NoSteps(c, Do(c, s3, TrimPartition(0, p)));
    RunStep(c, s3, TrimPartition(0, p), []);
    RunStep(c, s2, TrimStop(0), [TrimPartition(0, p)] + []);
    RunOn(c, s1, down, [TrimStop(0)] + ([TrimPartition(0, p)] + []));
    RunStep(c, s, TrimRead(0), down + ([TrimStop(0)] + ([TrimPartition(0, p)] + [])));
  }
}
