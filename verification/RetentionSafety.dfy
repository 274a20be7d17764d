/** What every run of commits, GC and trims keeps. */
module RetentionSafety {
  import opened Prelude
  import opened Splits
  import opened Resolve
  import opened Offsets
  import opened Commits
  import opened History
  import opened PkDeltas
  import opened Retained
  import opened Retention

  lemma StartInv(c: Limits)
    ensures Inv(c, START)
  {
  }

  // ---- Steps that delete nothing and commit nothing ----

  /** The clock goes on and new objects appear; the chain stays. */
  ghost predicate Quiet(s: State, after: State) {
    && after.chain == s.chain && s.clock <= after.clock && s.objects <= after.objects
    && (forall p :: p in s.times ==> p in after.times && after.times[p] == s.times[p])
    && (forall p :: p in after.objects && p in s.times ==> p in s.objects)
    && (forall p :: p in s.store ==> p in after.store && after.store[p] == s.store[p])
  }

  lemma QuietRetains(c: Limits, s: State, after: State, i: nat)
    requires Quiet(s, after) && i < |s.chain| && RetainedNow(c, after, i)
    ensures RetainedNow(c, s, i)
  {
    RetentionShrinks(c.settings, s.chain, s.clock, |s.chain|, after.clock, |s.chain|, i);
  }

  lemma ChainKnown(s: State, i: nat)
    requires ChainInv(s) && KnownPaths(s) && i < |s.chain|
    ensures s.chain[i].path in s.store && s.store[s.chain[i].path] == s.chain[i].manifest
    ensures s.chain[i].path in s.times && Refs(s.chain[i].manifest) <= s.times.Keys
  {
    hide Refs, Linked, AppliedGrowsAlong;
  }

  lemma QuietPresent(c: Limits, s: State, after: State)
    requires Quiet(s, after) && RetainedPresent(c, s)
    ensures RetainedPresent(c, after)
  {
    forall i: nat | i < |s.chain| && RetainedNow(c, after, i) ensures s.chain[i].path in after.objects {
      QuietRetains(c, s, after, i);
    }
  }

  lemma QuietWhole(s: State, after: State)
    requires Quiet(s, after) && ManifestsWhole(s) && ChainInv(s) && KnownPaths(s)
    ensures ManifestsWhole(after)
  {
    hide Refs, ChainInv, KnownPaths;
    forall i | 0 <= i < |s.chain| && s.chain[i].path in after.objects
      ensures Refs(s.chain[i].manifest) <= after.objects
    {
      ChainKnown(s, i);
    }
  }

  lemma QuietGc(c: Limits, s: State, after: State, gc: Gc)
    requires Quiet(s, after) && GcOk(c, s, gc) && ChainInv(s) && KnownPaths(s)
    ensures GcOk(c, after, gc)
  {
    hide Refs, ChainInv, KnownPaths, RetainedNow, RootedOk;
    if gc.Rooted? || gc.Listed? { QuietRooted(c, s, after, gc.now, gc.live, gc.clock); }
    forall i: nat | i < |s.chain| && RetainedNow(c, after, i) ensures RetainedNow(c, s, i) {
      QuietRetains(c, s, after, i);
    }
    forall i | 0 <= i < |s.chain| ensures s.chain[i].path in s.times && Refs(s.chain[i].manifest) <= s.times.Keys {
      ChainKnown(s, i);
    }
    if gc.Deleting? {
      forall i | 0 <= i < |s.chain| && s.chain[i].path in after.objects
        ensures SparesRefs(c, after, gc.now, gc.keep, s.chain[i].manifest)
      {
        assert SparesRefs(c, s, gc.now, gc.keep, s.chain[i].manifest);
      }
    }
  }

  lemma QuietRooted(c: Limits, s: State, after: State, now: nat, live: nat, clock: nat)
    requires Quiet(s, after) && RootedOk(c, s, now, live, clock) && ChainInv(s) && KnownPaths(s)
    ensures RootedOk(c, after, now, live, clock) && live <= |s.chain|
  {
    hide Refs, ChainInv, KnownPaths;
    forall i | live <= i < |s.chain|
      ensures !Expired(c, after, s.chain[i].path, now) && RefsSince(c, after, now, live, s.chain[i].manifest)
    {
      ChainKnown(s, i);
      assert RefsSince(c, s, now, live, s.chain[i].manifest);
    }
  }

  lemma QuietTrim(c: Limits, s: State, after: State, trim: Trim)
    requires Quiet(s, after) && TrimOk(c, s, trim)
    ensures TrimOk(c, after, trim)
  {
    hide BoundsOk;
    if trim.Bounded? { QuietBounds(c, s, after, trim.bounds); }
  }

  lemma QuietBounds(c: Limits, s: State, after: State, bounds: Applied)
    requires Quiet(s, after) && BoundsOk(c, s, bounds)
    ensures BoundsOk(c, after, bounds)
  {
    forall i: nat, p: nat | i < |s.chain| && RetainedNow(c, after, i)
      ensures UpTo(bounds, p) <= UpTo(s.chain[i].manifest.applied, p)
    {
      QuietRetains(c, s, after, i);
    }
  }

  lemma QuietPending(s: State, after: State, p: Pending)
    requires Quiet(s, after) && PendingOk(s, p)
    ensures PendingOk(after, p)
  {
    hide Refs, AppliedLe;
  }

  lemma QuietGone(c: Limits, s: State, after: State)
    requires Quiet(s, after) && GoneIsOld(c, s) && forall p :: p in after.times && p !in s.times ==> p in after.objects
    ensures GoneIsOld(c, after)
  {
  }

  lemma QuietChain(s: State, after: State)
    requires Quiet(s, after) && ChainInv(s)
    ensures ChainInv(after)
  {
    hide Linked, AppliedGrowsAlong;
  }

  /** Everything but the pending commits and the known paths. */
  lemma QuietKeeps(c: Limits, s: State, after: State)
    requires Inv(c, s) && Quiet(s, after) && after.clock < U64_MAX
    requires after.gcs == s.gcs && after.trims == s.trims && after.logStarts == s.logStarts
    requires forall p :: p in after.times && p !in s.times ==> p in after.objects
    requires KnownPaths(after) && PendingsOk(after)
    ensures Inv(c, after)
  {
    hide Quiet, RetainedPresent, ManifestsWhole, KnownPaths, GoneIsOld, ChainInv, GcOk, BoundsOk, TrimOk, PendingsOk;
    assert after.chain == s.chain by { QuietSame(s, after); }
    QuietPresent(c, s, after);
    QuietWhole(s, after);
    QuietGone(c, s, after);
    QuietChain(s, after);
    forall g | g in s.gcs { QuietGc(c, s, after, s.gcs[g]); }
    forall t | t in s.trims { QuietTrim(c, s, after, s.trims[t]); }
    QuietBounds(c, s, after, s.logStarts);
  }

  lemma QuietSame(s: State, after: State)
    requires Quiet(s, after)
    ensures after.chain == s.chain
  {
  }

  lemma QuietPendings(s: State, after: State)
    requires Quiet(s, after) && PendingsOk(s)
    requires forall w :: w in after.pending ==> exists v :: v in s.pending && after.pending[w] == s.pending[v]
    ensures PendingsOk(after)
  {
    hide Quiet, PendingOk;
    forall w | w in after.pending ensures PendingOk(after, after.pending[w]) {
      var v :| v in s.pending && after.pending[w] == s.pending[v];
      QuietPending(s, after, s.pending[v]);
    }
  }

  lemma TickKeeps(c: Limits, s: State, step: Step)
    requires Inv(c, s) && (step.Tick? || step.PutObject? || step.Resend? || step.GiveUp?) && Enabled(c, s, step)
    ensures Inv(c, Do(c, s, step))
  {
    hide RetainedPresent, ManifestsWhole, GoneIsOld, ChainInv, GcOk, BoundsOk, TrimOk, PendingOk, Refs;
    var after := Do(c, s, step);
    assert Quiet(s, after);
    QuietPendings(s, after);
    QuietKeeps(c, s, after);
  }

  lemma PutManifestKeeps(c: Limits, s: State, step: Step)
    requires Inv(c, s) && step.PutManifest? && Enabled(c, s, step)
    ensures Inv(c, Do(c, s, step))
  {
    hide RetainedPresent, ManifestsWhole, GoneIsOld, ChainInv, GcsOk, TrimsOk, KnownPaths, PendingOk, BuiltOn, NewRefs;
    var after := Do(c, s, step);
    ManifestQuiet(s, step.w, step.path, step.time, step.manifest);
    ManifestKnown(s, step.path, step.time, step.manifest);
    forall w | w in after.pending ensures PendingOk(after, after.pending[w]) {
      if w != step.w { QuietPending(s, after, s.pending[w]); }
    }
    SamePaths(s.(times := after.times, objects := after.objects, store := after.store), after);
    QuietKeeps(c, s, after);
  }

  /** A manifest stored at a new path, and the commit that waits on it. */
  lemma ManifestQuiet(s: State, w: nat, path: Path, time: nat, m: Manifest)
    requires ChainInv(s) && KnownPaths(s) && path !in s.times && m.createdAt <= time && m.parentVersion <= |s.chain|
    requires BuiltOn(s, m.parentVersion, m) && NewRefs(s, m.parentVersion, m.createdAt, m)
    ensures var after := s.(
                           times := s.times[path := time], objects := s.objects + {path}, store := s.store[path := m],
                           pending := s.pending[w := Pending(path, m.createdAt)]);
            Quiet(s, after) && PendingOk(after, Pending(path, m.createdAt)) && Descends(m)
  {
    hide Refs, AppliedLe, ChainInv;
  }

  lemma SamePaths(a: State, b: State)
    requires KnownPaths(a) && a.times == b.times && a.objects == b.objects && a.store == b.store
    ensures KnownPaths(b)
  {
    hide Refs;
  }

  lemma ManifestKnown(s: State, path: Path, time: nat, m: Manifest)
    requires ChainInv(s) && KnownPaths(s) && m.parentVersion <= |s.chain|
    requires NewRefs(s, m.parentVersion, m.createdAt, m) && Descends(m)
    ensures KnownPaths(
              s.(times := s.times[path := time], objects := s.objects + {path}, store := s.store[path := m]))
  {
    hide Refs, ChainInv;
    forall o | o in Refs(m) ensures o in s.times {
      if m.parentVersion > 0 { ChainKnown(s, m.parentVersion - 1); }
    }
  }

  // ---- Commits ----

  /** An object no older than a commit that is still fresh cannot have expired. */
  lemma FreshIsYoung(c: Limits, s: State, started: nat, maxAge: nat, o: Path, now: nat)
    requires maxAge < c.grace && s.clock <= SaturatingAdd(started, maxAge) && s.clock < U64_MAX && now <= s.clock
    requires o in s.times && s.times[o] >= started
    ensures !Expired(c, s, o, now)
  {
  }

  lemma FreshIsPresent(c: Limits, s: State, started: nat, maxAge: nat, o: Path)
    requires maxAge < c.grace && s.clock <= SaturatingAdd(started, maxAge) && s.clock < U64_MAX
    requires o in s.times && s.times[o] >= started && GoneIsOld(c, s)
    ensures o in s.objects
  {
    FreshIsYoung(c, s, started, maxAge, o, s.clock);
  }

  /** The state after the commit of `entry`. */
  function Committed(s: State, entry: Entry): State {
    s.(chain := s.chain + [entry])
  }

  lemma CommitRetains(c: Limits, s: State, entry: Entry, i: nat)
    requires i < |s.chain| && RetainedNow(c, Committed(s, entry), i)
    ensures RetainedNow(c, s, i)
  {
    var longer := s.chain + [entry];
    RetentionShrinks(c.settings, longer, s.clock, |s.chain|, s.clock, |longer|, i);
    RetainsPrefix(c.settings, s.chain, [entry], s.clock, |s.chain|, i);
  }

  lemma LiveRetained(c: Limits, s: State)
    requires s.chain != []
    ensures RetainedNow(c, s, |s.chain| - 1)
  {
  }

  lemma CommitChain(s: State, entry: Entry)
    requires ChainInv(s) && BuiltOn(s, |s.chain|, entry.manifest)
    requires entry.path in s.store && s.store[entry.path] == entry.manifest
    ensures ChainInv(Committed(s, entry))
  {
    var longer := s.chain + [entry];
    forall i | 0 <= i < |longer| ensures LinkedAt(longer, i) {
      if i < |s.chain| { assert LinkedAt(s.chain, i); }
    }
    forall i, j | 0 <= i <= j < |longer| ensures AppliedLe(longer[i].manifest.applied, longer[j].manifest.applied) {
      if i < j == |s.chain| {
        AppliedTransitive(longer[i].manifest.applied, longer[j - 1].manifest.applied, longer[j].manifest.applied);
      }
    }
  }

  /** What a fresh commit references is there, and no GC run will take it. */
  ghost predicate Fresh(c: Limits, s: State, entry: Entry, started: nat, maxAge: nat) {
    && maxAge < c.grace && s.clock <= SaturatingAdd(started, maxAge) && s.clock < U64_MAX
    && entry.path in s.times && s.times[entry.path] >= started
    && NewRefs(s, |s.chain|, started, entry.manifest)
  }

  lemma CommitWhole(c: Limits, s: State, entry: Entry, started: nat, maxAge: nat)
    requires Fresh(c, s, entry, started, maxAge) && GoneIsOld(c, s) && RetainedPresent(c, s) && ManifestsWhole(s)
    ensures ManifestsWhole(Committed(s, entry)) && RetainedPresent(c, Committed(s, entry))
  {
    var after := Committed(s, entry);
    FreshIsPresent(c, s, started, maxAge, entry.path);
    hide Refs;
    forall o | o in Refs(entry.manifest) ensures o in s.objects {
      if s.chain != [] { LiveRetained(c, s); }
      if o in s.times && s.times[o] >= started { FreshIsPresent(c, s, started, maxAge, o); }
    }
    forall i: nat | i < |after.chain| && RetainedNow(c, after, i) ensures after.chain[i].path in after.objects {
      if i < |s.chain| { CommitRetains(c, s, entry, i); }
    }
  }

  lemma CommitSpares(c: Limits, s: State, entry: Entry, started: nat, maxAge: nat, now: nat, keep: set<Path>)
    requires Fresh(c, s, entry, started, maxAge) && RetainedPresent(c, s) && now <= s.clock
    requires s.chain != [] && s.chain[|s.chain| - 1].path in s.objects ==>
               SparesRefs(c, s, now, keep, s.chain[|s.chain| - 1].manifest)
    ensures SparesRefs(c, s, now, keep, entry.manifest) && Spared(c, s, now, keep, entry.path)
  {
    FreshIsYoung(c, s, started, maxAge, entry.path, now);
    hide Refs;
    forall o | o in Refs(entry.manifest) ensures Spared(c, s, now, keep, o) {
      if s.chain != [] { LiveRetained(c, s); }
      if o in s.times && s.times[o] >= started { FreshIsYoung(c, s, started, maxAge, o, now); }
    }
  }

  lemma CommitGc(c: Limits, s: State, entry: Entry, started: nat, maxAge: nat, gc: Gc)
    requires Fresh(c, s, entry, started, maxAge) && RetainedPresent(c, s) && GcOk(c, s, gc)
    ensures GcOk(c, Committed(s, entry), gc)
  {
    var after := Committed(s, entry);
    hide Refs, Fresh, RetainedPresent, RootedOk;
    match gc
    case Began(_) =>
    case Rooted(now, live, clock) => CommitRooted(c, s, entry, started, maxAge, now, live, clock);
    case Listed(now, live, clock, _) => CommitRooted(c, s, entry, started, maxAge, now, live, clock);
    case Deleting(now, keep) =>
      CommitSpares(c, s, entry, started, maxAge, now, keep);
      hide RetainedNow;
      forall i | 0 <= i < |after.chain| && after.chain[i].path in after.objects
        ensures SparesRefs(c, after, now, keep, after.chain[i].manifest)
      {
        if i < |s.chain| {
          assert SparesRefs(c, s, now, keep, s.chain[i].manifest);
        } else {
          assert SparesRefs(c, s, now, keep, entry.manifest);
        }
      }
      forall i: nat | i < |after.chain| && RetainedNow(c, after, i)
        ensures Spared(c, after, now, keep, after.chain[i].path)
      {
        if i < |s.chain| { CommitRetains(c, s, entry, i); }
      }
  }

  lemma CommitRooted(
    c: Limits, s: State, entry: Entry, started: nat, maxAge: nat, now: nat, live: nat, clock: nat)
    requires Fresh(c, s, entry, started, maxAge) && RootedOk(c, s, now, live, clock)
    ensures RootedOk(c, Committed(s, entry), now, live, clock) && live <= |s.chain|
  {
    hide Refs;
    var after := Committed(s, entry);
    FreshIsYoung(c, s, started, maxAge, entry.path, now);
    forall o | o in Refs(entry.manifest)
      ensures (live > 0 && o in Refs(s.chain[live - 1].manifest)) || !Expired(c, s, o, now)
    {
      if o in s.times && s.times[o] >= started {
        FreshIsYoung(c, s, started, maxAge, o, now);
      } else if live < |s.chain| {
        assert RefsSince(c, s, now, live, s.chain[|s.chain| - 1].manifest);
      }
    }
    forall i | live <= i < |after.chain| ensures RefsSince(c, after, now, live, after.chain[i].manifest) {
      if i < |s.chain| { assert RefsSince(c, s, now, live, s.chain[i].manifest); }
    }
  }

  lemma UpToGrows(a: Applied, b: Applied, p: nat)
    requires AppliedLe(a, b)
    ensures UpTo(a, p) <= UpTo(b, p)
  {
  }

  lemma CommitBounds(c: Limits, s: State, entry: Entry, bounds: Applied)
    requires BoundsOk(c, s, bounds) && BuiltOn(s, |s.chain|, entry.manifest) && (s.chain == [] ==> bounds == map[])
    ensures BoundsOk(c, Committed(s, entry), bounds)
  {
    var after := Committed(s, entry);
    forall i: nat, p: nat | i < |after.chain| && RetainedNow(c, after, i)
      ensures UpTo(bounds, p) <= UpTo(after.chain[i].manifest.applied, p)
    {
      if i < |s.chain| {
        CommitRetains(c, s, entry, i);
      } else if s.chain != [] {
        LiveRetained(c, s);
        UpToGrows(s.chain[i - 1].manifest.applied, entry.manifest.applied, p);
      }
    }
  }

  lemma CommitTrim(c: Limits, s: State, entry: Entry, trim: Trim)
    requires TrimOk(c, s, trim) && BuiltOn(s, |s.chain|, entry.manifest) && s.chain != []
    ensures TrimOk(c, Committed(s, entry), trim)
  {
    hide BoundsOk, BuiltOn;
    if trim.Bounded? { CommitBounds(c, s, entry, trim.bounds); }
  }

  lemma CommitPending(s: State, entry: Entry, p: Pending)
    requires PendingOk(s, p)
    ensures PendingOk(Committed(s, entry), p)
  {
    hide Refs, AppliedLe;
  }

  lemma CommitKeeps(c: Limits, s: State, step: Step)
    requires Inv(c, s) && step.Commit? && Enabled(c, s, step)
    ensures Inv(c, Do(c, s, step))
  {
    hide ChainInv, KnownPaths, GoneIsOld, RetainedPresent, ManifestsWhole, GcOk, BoundsOk, TrimOk, Refs, Linked,
         AppliedLe;
    var p := s.pending[step.w];
    var entry := Entry(p.path, s.store[p.path]);
    assert PendingOk(s, p);
    assert Fresh(c, s, entry, p.started, step.maxAge);
    var mid := Committed(s, entry);
    CommitChain(s, entry);
    CommitWhole(c, s, entry, p.started, step.maxAge);
    forall g | g in s.gcs { CommitGc(c, s, entry, p.started, step.maxAge, s.gcs[g]); }
    forall t | t in s.trims { CommitTrim(c, s, entry, s.trims[t]); }
    CommitBounds(c, s, entry, s.logStarts);
    forall w | w in s.pending { CommitPending(s, entry, s.pending[w]); }
    hide Fresh, PendingOk, BuiltOn;
    CommitFrame(c, s, entry);
  }

  lemma CommitFrame(c: Limits, s: State, entry: Entry)
    requires KnownPaths(s) && GoneIsOld(c, s)
    ensures KnownPaths(Committed(s, entry)) && GoneIsOld(c, Committed(s, entry))
  {
    hide Refs;
  }

  // ---- Garbage collection ----

  lemma GcChanges(c: Limits, s: State, g: nat, gc: Gc)
    requires Inv(c, s) && GcOk(c, s, gc)
    ensures Inv(c, s.(gcs := s.gcs[g := gc]))
  {
    hide Refs;
    var after := s.(gcs := s.gcs[g := gc]);
    assert Quiet(s, after);
    forall h | h in after.gcs ensures GcOk(c, after, after.gcs[h]) {
      QuietGc(c, s, after, after.gcs[h]);
    }
    assert after.(gcs := s.gcs) == s;
    QuietPendings(s, after);
    QuietPresent(c, s, after);
    QuietWhole(s, after);
    QuietGone(c, s, after);
    QuietChain(s, after);
    forall t | t in s.trims { QuietTrim(c, s, after, s.trims[t]); }
    QuietBounds(c, s, after, s.logStarts);
  }

  /** A retained manifest that was committed when the run read the pointer is reached by its walk. */
  lemma RetainedReached(c: Limits, s: State, gc: Gc, i: nat)
    requires RetainedPresent(c, s) && gc.Listed? && GcOk(c, s, gc)
    requires i < gc.live && RetainedNow(c, s, i)
    ensures GcReaches(c, s, gc, i)
  {
    RetentionShrinks(c.settings, s.chain, gc.clock, gc.live, s.clock, |s.chain|, i);
    forall j: nat | i <= j < gc.live - 1 ensures s.chain[j].path in s.objects {
      RetainsNewer(c.settings, s.chain, s.clock, |s.chain|, i, j);
      assert RetainedNow(c, s, j);
    }
  }

  lemma KeepSpares(c: Limits, s: State, gc: Gc, keep: set<Path>)
    requires ChainInv(s) && KnownPaths(s) && RetainedPresent(c, s) && gc.Listed? && GcOk(c, s, gc)
    requires forall i: nat :: GcReaches(c, s, gc, i) ==> s.chain[i].path in keep && Refs(s.chain[i].manifest) <= keep
    requires forall p :: p in gc.listed && p in s.objects && p in s.store ==> Refs(s.store[p]) <= keep
    ensures GcOk(c, s, Deleting(gc.now, keep))
  {
    hide ChainInv, KnownPaths, Refs, RetainedPresent, RetainedNow;
    if gc.live > 0 { assert GcReaches(c, s, gc, gc.live - 1); }
    forall i | 0 <= i < |s.chain| && s.chain[i].path in s.objects
      ensures SparesRefs(c, s, gc.now, keep, s.chain[i].manifest)
    {
      ChainKnown(s, i);
      if i >= gc.live { assert RefsSince(c, s, gc.now, gc.live, s.chain[i].manifest); }
    }
    forall i: nat | i < |s.chain| && RetainedNow(c, s, i) ensures Spared(c, s, gc.now, keep, s.chain[i].path) {
      if i < gc.live { RetainedReached(c, s, gc, i); }
    }
  }

  lemma ListedAll(c: Limits, s: State, gc: Gc)
    requires ChainInv(s) && KnownPaths(s) && gc.Rooted? && GcOk(c, s, gc)
    ensures GcOk(c, s, Listed(gc.now, gc.live, gc.clock, s.objects * s.store.Keys))
  {
    hide ChainInv, KnownPaths, Refs;
    forall i | 0 <= i < gc.live ensures s.chain[i].path in s.store { ChainKnown(s, i); }
  }

  lemma GcKeeps(c: Limits, s: State, step: Step)
    requires Inv(c, s) && (step.GcBegin? || step.GcRoots? || step.GcList? || step.GcKeep?) && Enabled(c, s, step)
    ensures Inv(c, Do(c, s, step))
  {
    hide ChainInv, KnownPaths, GoneIsOld, RetainedPresent, ManifestsWhole, PendingsOk, TrimsOk, Refs, GcReaches;
    match step
    case GcBegin(g) =>
      GcChanges(c, s, g, Began(s.clock));
    case GcRoots(g) =>
      assert GcOk(c, s, s.gcs[g]);
      GcChanges(c, s, g, Rooted(s.gcs[g].now, |s.chain|, s.clock));
    case GcList(g) =>
      assert GcOk(c, s, s.gcs[g]);
      ListedAll(c, s, s.gcs[g]);
      GcChanges(c, s, g, Listed(s.gcs[g].now, s.gcs[g].live, s.gcs[g].clock, s.objects * s.store.Keys));
    case GcKeep(g, keep) =>
      assert GcOk(c, s, s.gcs[g]);
      KeepSpares(c, s, s.gcs[g], keep);
      GcChanges(c, s, g, Deleting(s.gcs[g].now, keep));
  }

  /** Deleting what a run neither keeps nor finds young leaves the retained manifests present and every
      present manifest whole. */
  lemma DeleteKeepsWhole(c: Limits, s: State, gc: Gc, path: Path)
    requires gc.Deleting? && GcOk(c, s, gc) && path !in gc.keep && Expired(c, s, path, gc.now)
    requires RetainedPresent(c, s) && ManifestsWhole(s) && GoneIsOld(c, s)
    ensures var after := s.(objects := s.objects - {path});
            RetainedPresent(c, after) && ManifestsWhole(after) && GoneIsOld(c, after)
  {
    hide Refs;
    var after := s.(objects := s.objects - {path});
    forall i: nat | i < |s.chain| && RetainedNow(c, after, i) ensures s.chain[i].path in after.objects {
      assert RetainedNow(c, s, i);
      assert Spared(c, s, gc.now, gc.keep, s.chain[i].path);
    }
    forall i | 0 <= i < |s.chain| && s.chain[i].path in after.objects
      ensures Refs(s.chain[i].manifest) <= after.objects
    {
      assert SparesRefs(c, s, gc.now, gc.keep, s.chain[i].manifest);
      forall o | o in Refs(s.chain[i].manifest) ensures o in after.objects {
        assert Spared(c, s, gc.now, gc.keep, o);
      }
    }
  }

  lemma DeleteGc(c: Limits, s: State, path: Path, gc: Gc)
    requires GcOk(c, s, gc)
    ensures GcOk(c, s.(objects := s.objects - {path}), gc)
  {
    hide Refs;
    var after := s.(objects := s.objects - {path});
    if gc.Rooted? || gc.Listed? {
      forall i | gc.live <= i < |s.chain| ensures RefsSince(c, after, gc.now, gc.live, s.chain[i].manifest) {
        assert RefsSince(c, s, gc.now, gc.live, s.chain[i].manifest);
      }
    }
    if gc.Deleting? {
      forall i | 0 <= i < |s.chain| && s.chain[i].path in after.objects
        ensures SparesRefs(c, after, gc.now, gc.keep, s.chain[i].manifest)
      {
        assert SparesRefs(c, s, gc.now, gc.keep, s.chain[i].manifest);
      }
      forall i: nat | i < |s.chain| && RetainedNow(c, after, i)
        ensures Spared(c, after, gc.now, gc.keep, s.chain[i].path)
      {
        assert RetainedNow(c, s, i);
      }
    }
  }

  lemma DeleteRest(c: Limits, s: State, path: Path)
    requires ChainInv(s) && KnownPaths(s) && PendingsOk(s) && TrimsOk(c, s)
    ensures var after := s.(objects := s.objects - {path});
            ChainInv(after) && KnownPaths(after) && PendingsOk(after) && TrimsOk(c, after)
  {
    hide Refs, Linked, Stored, AppliedGrowsAlong, AppliedLe, Retains;
    var after := s.(objects := s.objects - {path});
    forall w | w in s.pending ensures PendingOk(after, s.pending[w]) {
      assert PendingOk(s, s.pending[w]);
    }
    forall bounds: Applied | BoundsOk(c, s, bounds) ensures BoundsOk(c, after, bounds) {
      forall i: nat, p: nat | i < |s.chain| && RetainedNow(c, after, i)
        ensures UpTo(bounds, p) <= UpTo(s.chain[i].manifest.applied, p)
      {
        assert RetainedNow(c, s, i);
      }
    }
  }

  lemma DeleteKeeps(c: Limits, s: State, step: Step)
    requires Inv(c, s) && step.GcDelete? && Enabled(c, s, step)
    ensures Inv(c, Do(c, s, step))
  {
    hide ChainInv, KnownPaths, GoneIsOld, RetainedPresent, ManifestsWhole, PendingsOk, TrimsOk, GcOk;
    assert GcOk(c, s, s.gcs[step.g]);
    DeleteKeepsWhole(c, s, s.gcs[step.g], step.path);
    DeleteRest(c, s, step.path);
    forall g | g in s.gcs { DeleteGc(c, s, step.path, s.gcs[g]); }
  }

  // ---- Trims ----

  lemma TrimChanges(c: Limits, s: State, after: State)
    requires Inv(c, s) && after == s.(trims := after.trims, logStarts := after.logStarts)
    requires (forall t :: t in after.trims ==> TrimOk(c, s, after.trims[t])) && BoundsOk(c, s, after.logStarts)
    requires s.chain == [] ==> after.trims == map[] && after.logStarts == map[]
    ensures Inv(c, after)
  {
    hide Refs;
    assert Quiet(s, after);
    QuietPendings(s, after);
    QuietPresent(c, s, after);
    QuietWhole(s, after);
    QuietGone(c, s, after);
    QuietChain(s, after);
    forall g | g in s.gcs { QuietGc(c, s, after, s.gcs[g]); }
    forall t | t in after.trims { QuietTrim(c, s, after, after.trims[t]); }
    QuietBounds(c, s, after, after.logStarts);
  }

  /** Where a walk stops, no older manifest is retained any more, whatever was committed and deleted
      while it went on. */
  lemma StopBounds(c: Limits, s: State, trim: Trim)
    requires RetainedPresent(c, s) && AppliedGrowsAlong(s.chain) && trim.Walking? && TrimOk(c, s, trim)
    requires !GoesOn(c, s, trim)
    ensures BoundsOk(c, s, s.chain[trim.at].manifest.applied)
  {
    hide AppliedLe;
    var at := trim.at;
    forall i: nat, p: nat | i < |s.chain| && RetainedNow(c, s, i)
      ensures UpTo(s.chain[at].manifest.applied, p) <= UpTo(s.chain[i].manifest.applied, p)
    {
      if i < at {
        RetainsNewer(c.settings, s.chain, s.clock, |s.chain|, i, at - 1);
        assert RetainedNow(c, s, at - 1);
        RetentionShrinks(c.settings, s.chain, trim.clock, trim.live, s.clock, |s.chain|, at - 1);
        assert false;
      }
      UpToGrows(s.chain[at].manifest.applied, s.chain[i].manifest.applied, p);
    }
  }

  /** Every retained manifest can be reached. */
  lemma RetainedIsReached(c: Limits, s: State, i: nat)
    requires RetainedPresent(c, s) && i < |s.chain| && RetainedNow(c, s, i)
    ensures Reaches(s.objects, c.settings, s.clock, s.chain, |s.chain|, i)
  {
    forall j: nat | i <= j < |s.chain| - 1 ensures s.chain[j].path in s.objects {
      RetainsNewer(c.settings, s.chain, s.clock, |s.chain|, i, j);
      assert RetainedNow(c, s, j);
    }
  }

  lemma TrimmedBounds(c: Limits, s: State, bounds: Applied, partition: nat)
    requires BoundsOk(c, s, bounds) && BoundsOk(c, s, s.logStarts)
    ensures BoundsOk(c, s, s.logStarts[partition := UpTo(bounds, partition)])
  {
    hide RetainedNow;
    var after := s.logStarts[partition := UpTo(bounds, partition)];
    forall i: nat, p: nat | i < |s.chain| && RetainedNow(c, s, i)
      ensures UpTo(after, p) <= UpTo(s.chain[i].manifest.applied, p)
    {
      assert UpTo(bounds, p) <= UpTo(s.chain[i].manifest.applied, p);
      assert UpTo(s.logStarts, p) <= UpTo(s.chain[i].manifest.applied, p);
    }
  }

  lemma TrimKeeps(c: Limits, s: State, step: Step)
    requires Inv(c, s) && (step.TrimRead? || step.TrimNext? || step.TrimStop? || step.TrimPartition?)
    requires Enabled(c, s, step)
    ensures Inv(c, Do(c, s, step))
  {
    hide Refs, GcsOk, PendingsOk, ManifestsWhole, GoneIsOld, KnownPaths, RetainedNow, BoundsOk, KeepsParent;
    var after := Do(c, s, step);
    assert step.t in s.trims ==> TrimOk(c, s, s.trims[step.t]);
    match step {
      case TrimStop(t) => StopBounds(c, s, s.trims[t]);
      case TrimPartition(t, partition) => TrimmedBounds(c, s, s.trims[t].bounds, partition);
      case _ =>
    }
    hide Inv, GoesOn, RetainedPresent, ChainInv;
    TrimChanges(c, s, after);
  }

  // ---- Every run ----

  lemma StepKeeps(c: Limits, s: State, step: Step)
    requires Inv(c, s) && Enabled(c, s, step)
    ensures Inv(c, Do(c, s, step))
  {
    hide Inv, Enabled, Do;
    match step
    case Tick(_) => TickKeeps(c, s, step);
    case PutObject(_, _) => TickKeeps(c, s, step);
    case PutManifest(_, _, _, _) => PutManifestKeeps(c, s, step);
    case Commit(_, _) => CommitKeeps(c, s, step);
    case Resend(_, _) => TickKeeps(c, s, step);
    case GiveUp(_) => TickKeeps(c, s, step);
    case GcBegin(_) => GcKeeps(c, s, step);
    case GcRoots(_) => GcKeeps(c, s, step);
    case GcList(_) => GcKeeps(c, s, step);
    case GcKeep(_, _) => GcKeeps(c, s, step);
    case GcDelete(_, _) => DeleteKeeps(c, s, step);
    case TrimRead(_) => TrimKeeps(c, s, step);
    case TrimNext(_) => TrimKeeps(c, s, step);
    case TrimStop(_) => TrimKeeps(c, s, step);
    case TrimPartition(_, _) => TrimKeeps(c, s, step);
  }

  lemma {:induction false} RunKeeps(c: Limits, s: State, steps: seq<Step>)
    requires Inv(c, s) && IsRun(c, s, steps)
    ensures Inv(c, Reach(c, s, steps))
    decreases |steps|
  {
    hide Inv, Enabled, Do;
    if steps != [] {
      StepKeeps(c, s, steps[0]);
      RunKeeps(c, Do(c, s, steps[0]), steps[1..]);
    }
  }

  ghost predicate Reachable(c: Limits, s: State) {
    exists steps: seq<Step> :: IsRun(c, START, steps) && Reach(c, START, steps) == s
  }

  lemma ReachableInv(c: Limits, s: State)
    requires Reachable(c, s)
    ensures Inv(c, s)
  {
    var steps :| IsRun(c, START, steps) && Reach(c, START, steps) == s;
    StartInv(c);
    hide Inv, IsRun, Reach;
    RunKeeps(c, START, steps);
  }

  // ---- Theorems ----

  /** Whatever GC runs delete, every committed manifest still in the store has all the objects it
      references: a manifest goes before its objects, never after. */
  lemma PresentManifestsWhole(c: Limits, s: State, i: nat)
    requires Reachable(c, s) && i < |s.chain| && s.chain[i].path in s.objects
    ensures Refs(s.chain[i].manifest) <= s.objects
  {
    ReachableInv(c, s);
    hide Refs;
  }

  /** Retained manifests, the live one among them, are never deleted. */
  lemma RetainedNeverDeleted(c: Limits, s: State, i: nat)
    requires Reachable(c, s) && i < |s.chain| && (RetainedNow(c, s, i) || i == |s.chain| - 1)
    ensures s.chain[i].path in s.objects && Refs(s.chain[i].manifest) <= s.objects
  {
    ReachableInv(c, s);
    hide Refs;
    LiveRetained(c, s);
  }

  /** Along any run the clock and the log starts only go on, and the chain only grows. */
  ghost predicate Later(s: State, t: State) {
    && s.clock <= t.clock && |s.chain| <= |t.chain| && t.chain[..|s.chain|] == s.chain
    && forall p: nat :: UpTo(s.logStarts, p) <= UpTo(t.logStarts, p)
  }

  lemma StepIsLater(c: Limits, s: State, step: Step)
    requires Enabled(c, s, step)
    ensures Later(s, Do(c, s, step))
  {
  }

  lemma {:induction false} RunIsLater(c: Limits, s: State, steps: seq<Step>)
    requires IsRun(c, s, steps)
    ensures Later(s, Reach(c, s, steps))
    decreases |steps|
  {
    if steps != [] {
      StepIsLater(c, s, steps[0]);
      RunIsLater(c, Do(c, s, steps[0]), steps[1..]);
      hide Enabled, Do;
      LaterStill(s, Do(c, s, steps[0]), Reach(c, s, steps));
    }
  }

  lemma LaterStill(a: State, b: State, c: State)
    requires Later(a, b) && Later(b, c)
    ensures Later(a, c)
  {
    assert c.chain[..|a.chain|] == c.chain[..|b.chain|][..|a.chain|];
    forall p: nat ensures UpTo(a.logStarts, p) <= UpTo(c.logStarts, p) {
      assert UpTo(a.logStarts, p) <= UpTo(b.logStarts, p);
    }
  }

  /** A manifest that is not retained is never retained again. */
  lemma NotRetainedAgain(c: Limits, s: State, steps: seq<Step>, i: nat)
    requires IsRun(c, s, steps) && i < |s.chain| && !RetainedNow(c, s, i)
    ensures i < |Reach(c, s, steps).chain| && !RetainedNow(c, Reach(c, s, steps), i)
  {
    hide IsRun, Reach;
    var t := Reach(c, s, steps);
    RunIsLater(c, s, steps);
    assert t.chain == s.chain + t.chain[|s.chain|..];
    if RetainedNow(c, t, i) {
      RetentionShrinks(c.settings, t.chain, s.clock, |s.chain|, t.clock, |t.chain|, i);
      RetainsPrefix(c.settings, s.chain, t.chain[|s.chain|..], s.clock, |s.chain|, i);
    }
  }

  /** No partition is trimmed past the offset of a manifest retained now or at any later time, so no
      retained snapshot loses its tail and no unapplied record is trimmed. */
  lemma TrimSafe(c: Limits, s: State, steps: seq<Step>, i: nat, p: nat)
    requires Reachable(c, s) && IsRun(c, s, steps)
    requires var t := Reach(c, s, steps); i < |t.chain| && (RetainedNow(c, t, i) || i == |t.chain| - 1)
    ensures UpTo(s.logStarts, p) <= UpTo(Reach(c, s, steps).chain[i].manifest.applied, p)
  {
    ReachableInv(c, s);
    var t := Reach(c, s, steps);
    hide Inv, IsRun, Reach, Enabled, Do;
    RunKeeps(c, s, steps);
    RunIsLater(c, s, steps);
    InvBounds(c, t);
    LiveRetained(c, t);
  }

  lemma InvBounds(c: Limits, s: State)
    requires Inv(c, s)
    ensures BoundsOk(c, s, s.logStarts)
  {
    hide BoundsOk;
  }

  // ---- The commits of the protocol are such commits ----

  /** Version `v` of the chain, or the empty manifest. */
  function ParentAt(s: State, v: nat): Manifest
    requires v <= |s.chain|
  {
    if v == 0 then EMPTY else s.chain[v - 1].manifest
  }

  ghost predicate WrittenSince(s: State, started: nat, paths: set<Path>) {
    forall o :: o in paths ==> o in s.times && s.times[o] >= started
  }

  lemma RefsAreNew(s: State, v: nat, started: nat, m: Manifest, written: set<Path>)
    requires v <= |s.chain| && Refs(m) <= Refs(ParentAt(s, v)) + written && WrittenSince(s, started, written)
    ensures NewRefs(s, v, started, m)
  {
    NoRefs();
    hide Refs;
  }

  lemma NoRefs()
    ensures Refs(EMPTY) == {}
  {
  }

  /** A link-apply commit whose own objects were written since it started is one the retention model
      covers, whatever it keeps of its parent. */
  lemma LinkIsCovered(
    s: State, v: nat, started: nat, batch: Batch, r: Resolution, w: NewRows, objects: NewObjects,
    indexes: set<string>)
    requires Linked(s.chain) && v <= |s.chain| && BatchFits(ParentAt(s, v).applied, batch)
    requires WrittenSince(s, started, LinkWrites(ParentAt(s, v), r, w, objects))
    ensures var path := if v == 0 then None else Some(s.chain[v - 1].path);
            var m := LinkManifest(ParentAt(s, v), path, started, batch, r, w, objects, indexes);
            BuiltOn(s, v, m) && NewRefs(s, v, m.createdAt, m)
  {
    var parent := ParentAt(s, v);
    var path := if v == 0 then None else Some(s.chain[v - 1].path);
    var m := LinkManifest(parent, path, started, batch, r, w, objects, indexes);
    assert v > 0 ==> LinkedAt(s.chain, v - 1);
    hide LinkSplits, DeltaOf, Skipped, BatchFits, AppliedLe, Refs, LinkWrites;
    AppliedGrows(parent.applied, batch);
    LinkRefs(parent, path, started, batch, r, w, objects, indexes);
    RefsAreNew(s, v, started, m, LinkWrites(parent, r, w, objects));
  }

  /** So is an index build whose new files were written since it started. */
  lemma IndexIsCovered(
    s: State, v: nat, started: nat, index: string, removed: set<string>, files: set<Path>, kind: Kind)
    requires Linked(s.chain) && v <= |s.chain| && WrittenSince(s, started, files - ParentAt(s, v).lance.files)
    ensures var path := if v == 0 then None else Some(s.chain[v - 1].path);
            var m := IndexManifest(ParentAt(s, v), path, started, index, removed, files, kind);
            BuiltOn(s, v, m) && NewRefs(s, v, m.createdAt, m)
  {
    var path := if v == 0 then None else Some(s.chain[v - 1].path);
    var parent := ParentAt(s, v);
    var m := IndexManifest(parent, path, started, index, removed, files, kind);
    assert v > 0 ==> LinkedAt(s.chain, v - 1);
    assert Refs(m) <= Refs(parent) + (files - parent.lance.files);
    hide Refs;
    RefsAreNew(s, v, started, m, files - parent.lance.files);
  }

  // ---- The trim task ----

  /** `TrimTask::trim`: the new log start of every partition whose start lies below the offset of the
      oldest retained manifest. */
  method Trim(
    store: Store, present: set<Path>, settings: Settings, clock: nat, live: Entry, logStarts: seq<nat>)
    returns (r: Result<map<nat, nat>, Corrupt>)
    requires StoreDescends(store) && Descends(live.manifest)
    ensures var walked := RetainedFrom(store, present, settings, clock, 1, live);
            && (r.Ok? <==> walked.Ok?)
            && (r.Ok? ==>
                  && walked.value != []
                  && var oldest := walked.value[|walked.value| - 1].manifest;
                     && r.value == Trimmed(logStarts, oldest)
                     && (forall p: nat :: p in r.value <==>
                           p < |logStarts| && p in oldest.applied && oldest.applied[p] > logStarts[p])
                     && (forall p: nat :: p in r.value ==> r.value[p] == oldest.applied[p]))
  {
    var chain := RetainedChain(store, present, settings, clock, live);
    if chain.Err? {
      return Err(Corrupt);
    }
    var oldest := chain.value[|chain.value| - 1].manifest;
    var trims: map<nat, nat> := map[];
    for p := 0 to |logStarts|
      invariant trims == Trimmed(logStarts[..p], oldest)
    {
      var bound := UpTo(oldest.applied, p);
      TrimmedStep(logStarts, oldest, p);
      if bound <= logStarts[p] {
        continue;
      }
      trims := trims[p := bound];
    }
    assert logStarts[..|logStarts|] == logStarts;
    r := Ok(trims);
  }

  function Trimmed(logStarts: seq<nat>, oldest: Manifest): map<nat, nat> {
    map p: nat | p < |logStarts| && UpTo(oldest.applied, p) > logStarts[p] :: UpTo(oldest.applied, p)
  }

  lemma TrimmedStep(logStarts: seq<nat>, oldest: Manifest, p: nat)
    requires p < |logStarts|
    ensures Trimmed(logStarts[..p + 1], oldest)
         == if UpTo(oldest.applied, p) <= logStarts[p] then Trimmed(logStarts[..p], oldest)
            else Trimmed(logStarts[..p], oldest)[p := UpTo(oldest.applied, p)]
  {
  }

  lemma InvParts(c: Limits, s: State)
    requires Inv(c, s)
    ensures Linked(s.chain) && Stored(s.store, s.chain) && RetainedPresent(c, s) && StoreDescends(s.store)
  {
    hide Refs, Linked, Stored, RetainedPresent;
  }

  /** In every reachable state the walk of the trim task ends at the oldest retained manifest. */
  lemma TrimWalk(c: Limits, s: State)
    requires Reachable(c, s) && s.chain != []
    ensures StoreDescends(s.store) && Descends(s.chain[|s.chain| - 1].manifest)
    ensures var r := RetainedFrom(s.store, s.objects, c.settings, s.clock, 1, s.chain[|s.chain| - 1]);
            && r.Ok? && 0 < |r.value| <= |s.chain|
            && var oldest := |s.chain| - |r.value|;
               && r.value[|r.value| - 1] == s.chain[oldest] && OldestReached(c, s, oldest)
               && forall i: nat :: i < |s.chain| ==> (RetainedNow(c, s, i) <==> oldest <= i)
  {
    hide Inv, Reachable, StoreDescends, RetainedPresent, Stored, Linked;
    ReachableInv(c, s);
    var n := |s.chain|;
    InvParts(c, s);
    ChainAt(s.store, s.chain, n - 1);
    LiveRetained(c, s);
    RetainedIsReached(c, s, n - 1);
    WalkIsPrefix(s.store, s.objects, c.settings, s.clock, s.chain, n, n - 1);
    var oldest := n - |RetainedFrom(s.store, s.objects, c.settings, s.clock, 1, s.chain[n - 1]).value|;
    forall i: nat | i < n ensures RetainedNow(c, s, i) <==> oldest <= i {
      if oldest <= i {
        RetainsNewer(c.settings, s.chain, s.clock, n, oldest, i);
      } else if RetainedNow(c, s, i) {
        RetainedIsReached(c, s, i);
        ReachesNewer(s.objects, c.settings, s.clock, s.chain, n, i, oldest - 1);
      }
    }
  }
}
