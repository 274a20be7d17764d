/** What a manifest references and which manifests are retained
    (crates/loams-collection/src/chain.rs; `keep_referenced` of gc.rs). */
module Retained {
  import opened Prelude
  import opened RowLocator
  import opened Splits
  import opened Resolve
  import opened Offsets
  import opened RowSets
  import opened Commits
  import opened PkDeltas

  // ---- References ----

  function SplitRefs(splits: seq<SplitRef>): (r: set<Path>)
  {
    if splits == [] then {}
    else SplitRefs(splits[..|splits| - 1]) + OneSplitRefs(splits[|splits| - 1])
  }

  function OneSplitRefs(s: SplitRef): set<Path> {
    {s.path} + if s.bitmap.Some? then {s.bitmap.value} else {}
  }

  /** Every object `m` references, without itself. */
  function Refs(m: Manifest): set<Path> {
    SplitRefs(m.splits) + (if m.delta.Some? then {m.delta.value.path} else {})
    + (if m.letters.Some? then {m.letters.value} else {}) + m.lance.files
  }

  /** Adds what `m` references to `keep`. */
  method KeepReferenced(m: Manifest, keep: set<Path>) returns (r: set<Path>)
    ensures r == keep + Refs(m)
  {
    r := keep;
    for i := 0 to |m.splits|
      invariant r == keep + SplitRefs(m.splits[..i])
    {
      assert m.splits[..i + 1][..i] == m.splits[..i];
      r := r + {m.splits[i].path};
      if m.splits[i].bitmap.Some? {
        r := r + {m.splits[i].bitmap.value};
      }
    }
    assert m.splits[..|m.splits|] == m.splits;
    if m.delta.Some? {
      r := r + {m.delta.value.path};
    }
    if m.letters.Some? {
      r := r + {m.letters.value};
    }
    r := r + m.lance.files;
  }

  lemma {:induction false} SplitRefsConcat(a: seq<SplitRef>, b: seq<SplitRef>)
    ensures SplitRefs(a + b) == SplitRefs(a) + SplitRefs(b)
    decreases |b|
  {
    if b == [] {
      assert a + b == a;
    } else {
      hide OneSplitRefs;
      SplitRefsConcat(a, b[..|b| - 1]);
      assert (a + b)[..|a + b| - 1] == a + b[..|b| - 1];
    }
  }

  /** Deleting `rows` gives split `s` a new bitmap: some of its docs go, and some stay. */
  ghost predicate GetsBitmap(s: SplitRef, rows: set<nat>) {
    Hits(s, rows) != {} && |s.deleted + Hits(s, rows)| < s.docCount
  }

  /** The bitmaps that deleting `rows` writes. */
  ghost function NewBitmaps(splits: seq<SplitRef>, rows: set<nat>, bitmaps: nat -> Path): (r: set<Path>)
  {
    if splits == [] then {}
    else
      var n := |splits| - 1;
      NewBitmaps(splits[..n], rows, bitmaps) + if GetsBitmap(splits[n], rows) then {bitmaps(n)} else {}
  }

  lemma {:induction false} DeletedRefs(splits: seq<SplitRef>, rows: set<nat>, bitmaps: nat -> Path)
    ensures var refs, written := SplitRefs(AfterDeletes(splits, rows, bitmaps)), NewBitmaps(splits, rows, bitmaps);
            written <= refs <= SplitRefs(splits) + written
  {
    if splits != [] {
      var n := |splits| - 1;
      DeletedRefs(splits[..n], rows, bitmaps);
      AfterDeletesStep(splits, rows, bitmaps);
      NewBitmapsStep(splits, rows, bitmaps);
      SplitRefsStep(splits);
      OneDeletedRefs(splits[n], rows, bitmaps(n));
      hide *;
      SplitRefsConcat(AfterDeletes(splits[..n], rows, bitmaps), AfterOne(splits[n], rows, bitmaps(n)));
    }
  }

  lemma NewBitmapsStep(splits: seq<SplitRef>, rows: set<nat>, bitmaps: nat -> Path)
    requires splits != []
    ensures var n := |splits| - 1;
            NewBitmaps(splits, rows, bitmaps)
            == NewBitmaps(splits[..n], rows, bitmaps) + if GetsBitmap(splits[n], rows) then {bitmaps(n)} else {}
  {
  }

  lemma SplitRefsStep(splits: seq<SplitRef>)
    requires splits != []
    ensures SplitRefs(splits) == SplitRefs(splits[..|splits| - 1]) + OneSplitRefs(splits[|splits| - 1])
  {
  }

  lemma OneDeletedRefs(s: SplitRef, rows: set<nat>, bitmap: Path)
    ensures var refs := SplitRefs(AfterOne(s, rows, bitmap));
            if GetsBitmap(s, rows) then bitmap in refs && refs <= OneSplitRefs(s) + {bitmap}
            else refs <= OneSplitRefs(s)
  {
    hide Hits;
    var after := AfterOne(s, rows, bitmap);
    if after != [] { assert after[..0] == []; }
  }

  /** The objects a link-apply commit writes, besides its manifest: a split if it inserts, a bitmap for
      every split that loses some of its docs, a delta and the files its Lance version has and its
      parent's has not if it changes rows, and the dead letters if there are any. */
  ghost function LinkWrites(parent: Manifest, r: Resolution, w: NewRows, objects: NewObjects): set<Path> {
    (if r.inserts == map[] then {} else {objects.split})
    + NewBitmaps(parent.splits, r.retired.Values, objects.bitmaps)
    + (if ChangesRows(r) then {objects.delta} + (w.files - parent.lance.files) else {})
    + (if r.letters == multiset{} then {} else {objects.letters})
  }

  /** A commit references every object it wrote, and besides them nothing its parent did not. */
  lemma LinkRefs(
    parent: Manifest, parentPath: Option<Path>, started: nat, batch: Batch, r: Resolution, w: NewRows,
    objects: NewObjects, indexes: set<string>)
    ensures var refs := Refs(LinkManifest(parent, parentPath, started, batch, r, w, objects, indexes));
            LinkWrites(parent, r, w, objects) <= refs <= Refs(parent) + LinkWrites(parent, r, w, objects)
  {
    hide DeltaOf, Skipped, Replaced, Sorted, NewBitmaps, Runs, SplitRefs, OneSplitRefs, LinkSplits;
    LinkSplitRefs(parent, r, w, objects);
  }

  lemma LinkSplitRefs(parent: Manifest, r: Resolution, w: NewRows, objects: NewObjects)
    ensures var refs := SplitRefs(LinkSplits(parent, r, w, objects));
            var written := NewBitmaps(parent.splits, r.retired.Values, objects.bitmaps)
                           + if r.inserts == map[] then {} else {objects.split};
            written <= refs <= SplitRefs(parent.splits) + written
  {
    hide *;
    var kept := AfterDeletes(parent.splits, r.retired.Values, objects.bitmaps);
    DeletedRefs(parent.splits, r.retired.Values, objects.bitmaps);
    LinkSplitsAre(parent, r, w, objects);
    if r.inserts != map[] {
      SplitRefsConcat(kept, [SplitOf(objects.split, w.rows)]);
      NewSplitRefs(objects.split, w.rows);
    }
  }

  lemma NewSplitRefs(path: Path, rows: RowSet)
    ensures SplitRefs([SplitOf(path, rows)]) == {path}
  {
    hide Sorted, Runs;
    assert [SplitOf(path, rows)][..0] == [];
  }

  // ---- Retention ----

  /** How many manifests, and for how long, a collection keeps. */
  datatype Settings = Settings(keepManifests: nat, retention: nat)

  /** Whether the ancestor at `distance` stays, `child` being the manifest that superseded it. */
  predicate Kept(settings: Settings, clock: nat, distance: nat, child: Manifest) {
    distance <= settings.keepManifests || SaturatingAdd(child.createdAt, settings.retention) > clock
  }

  datatype Entry = Entry(path: Path, manifest: Manifest)

  /** `entry` and its retained ancestors, newest first, `entry` being at `distance - 1`. */
  function RetainedFrom(
    store: Store, present: set<Path>, settings: Settings, clock: nat, distance: nat, entry: Entry)
    : (r: Result<seq<Entry>, Corrupt>)
    requires StoreDescends(store) && Descends(entry.manifest)
    decreases entry.manifest.version
  {
    var m := entry.manifest;
    if m.parent.None? || !Kept(settings, clock, distance, m) then Ok([entry])
    else
      var path := m.parent.value;
      if path !in present || path !in store then Ok([entry])
      else if store[path].version != m.parentVersion then Err(Corrupt)
      else
        match RetainedFrom(store, present, settings, clock, distance + 1, Entry(path, store[path]))
        case Err(e) => Err(e)
        case Ok(older) => Ok([entry] + older)
  }

  function After(newer: seq<Entry>, r: Result<seq<Entry>, Corrupt>): Result<seq<Entry>, Corrupt> {
    if r.Ok? then Ok(newer + r.value) else r
  }

  lemma AfterNone(r: Result<seq<Entry>, Corrupt>)
    ensures After([], r) == r
  {
    if r.Ok? { assert [] + r.value == r.value; }
  }

  /** `m` was created less than the retention before `clock`. */
  predicate Young(settings: Settings, clock: nat, m: Manifest) {
    m.createdAt + settings.retention > clock && clock < U64_MAX
  }

  /** The walk may go from its entry at `d - 1` to the one at `d`: that is the stored parent, near enough
      or superseded recently enough. */
  ghost predicate WalkedTo(
    store: Store, present: set<Path>, settings: Settings, clock: nat, walked: seq<Entry>, d: nat)
    requires 0 < d < |walked|
  {
    var child, path := walked[d - 1].manifest, walked[d].path;
    && child.parent == Some(path) && path in present && path in store && store[path] == walked[d].manifest
    && walked[d].manifest.version == child.parentVersion
    && (d <= settings.keepManifests || Young(settings, clock, child))
  }

  /** The walk ends at `last`, `n` entries long: there is no parent, or it is too far and too old, or it
      is gone. */
  predicate StopsAt(store: Store, present: set<Path>, settings: Settings, clock: nat, last: Manifest, n: nat) {
    || last.parent.None?
    || (n > settings.keepManifests && !Young(settings, clock, last))
    || last.parent.value !in present || last.parent.value !in store
  }

  /** `walked` is the retained chain of `live`, newest first. */
  ghost predicate IsRetainedChain(
    store: Store, present: set<Path>, settings: Settings, clock: nat, live: Entry, walked: seq<Entry>)
  {
    && walked != [] && walked[0] == live
    && (forall d :: 0 < d < |walked| ==> WalkedTo(store, present, settings, clock, walked, d))
    && StopsAt(store, present, settings, clock, walked[|walked| - 1].manifest, |walked|)
  }

  method RetainedChain(store: Store, present: set<Path>, settings: Settings, clock: nat, live: Entry)
    returns (r: Result<seq<Entry>, Corrupt>)
    requires StoreDescends(store) && Descends(live.manifest)
    ensures r == RetainedFrom(store, present, settings, clock, 1, live)
    ensures r.Ok? ==> IsRetainedChain(store, present, settings, clock, live, r.value)
  {
    hide RetainedFrom, WalkedTo, After;
    var chain := [live];
    AfterNone(RetainedFrom(store, present, settings, clock, 1, live));
    while true
      invariant chain != [] && chain[0] == live && Descends(chain[|chain| - 1].manifest)
      invariant forall d :: 0 < d < |chain| ==> WalkedTo(store, present, settings, clock, chain, d)
      invariant RetainedFrom(store, present, settings, clock, 1, live)
             == After(chain[..|chain| - 1], RetainedFrom(store, present, settings, clock, |chain|, chain[|chain| - 1]))
      decreases chain[|chain| - 1].manifest.version
    {
      var entry := chain[|chain| - 1];
      var child := entry.manifest;
      assert chain[..|chain| - 1] + [entry] == chain;
      if child.parent.None? {
        break;
      }
      if |chain| > settings.keepManifests && !(SaturatingAdd(child.createdAt, settings.retention) > clock) {
        break;
      }
      var path := child.parent.value;
      if path !in present || path !in store {
        break;
      }
      WalkBreaks(store, present, settings, clock, chain);
      if store[path].version != child.parentVersion {
        return Err(Corrupt);
      }
      StepDown(store, present, settings, clock, chain, Entry(path, store[path]));
      assert (chain + [Entry(path, store[path])])[..|chain|] == chain;
      WalkedOn(store, present, settings, clock, chain, Entry(path, store[path]));
      chain := chain + [Entry(path, store[path])];
    }
    WalkEnds(store, present, settings, clock, chain);
    r := Ok(chain);
  }

  lemma WalkEnds(store: Store, present: set<Path>, settings: Settings, clock: nat, chain: seq<Entry>)
    requires StoreDescends(store) && chain != [] && Descends(chain[|chain| - 1].manifest)
    requires StopsAt(store, present, settings, clock, chain[|chain| - 1].manifest, |chain|)
    ensures After(chain[..|chain| - 1], RetainedFrom(store, present, settings, clock, |chain|, chain[|chain| - 1]))
         == Ok(chain)
  {
    assert chain[..|chain| - 1] + [chain[|chain| - 1]] == chain;
  }

  lemma WalkBreaks(store: Store, present: set<Path>, settings: Settings, clock: nat, chain: seq<Entry>)
    requires StoreDescends(store) && chain != [] && Descends(chain[|chain| - 1].manifest)
    requires var child := chain[|chain| - 1].manifest;
             !StopsAt(store, present, settings, clock, child, |chain|)
    ensures var child := chain[|chain| - 1].manifest;
            && Kept(settings, clock, |chain|, child)
            && (store[child.parent.value].version != child.parentVersion ==>
                  After(chain[..|chain| - 1],
                        RetainedFrom(store, present, settings, clock, |chain|, chain[|chain| - 1])) == Err(Corrupt))
  {
  }

  lemma WalkedOn(store: Store, present: set<Path>, settings: Settings, clock: nat, chain: seq<Entry>, next: Entry)
    requires chain != [] && forall d :: 0 < d < |chain| ==> WalkedTo(store, present, settings, clock, chain, d)
    requires var child := chain[|chain| - 1].manifest;
             && child.parent == Some(next.path) && next.path in present && next.path in store
             && store[next.path] == next.manifest && next.manifest.version == child.parentVersion
             && (|chain| <= settings.keepManifests || Young(settings, clock, child))
    ensures forall d :: 0 < d <= |chain| ==> WalkedTo(store, present, settings, clock, chain + [next], d)
  {
    forall d | 0 < d < |chain| ensures WalkedTo(store, present, settings, clock, chain + [next], d) {
      assert WalkedTo(store, present, settings, clock, chain, d);
    }
  }

  /** The walk that goes on from the last entry of `chain` gives a retained chain. */
  lemma {:induction false} WalkIsRetained(
    store: Store, present: set<Path>, settings: Settings, clock: nat, chain: seq<Entry>)
    requires StoreDescends(store) && chain != [] && Descends(chain[|chain| - 1].manifest)
    requires forall d :: 0 < d < |chain| ==> WalkedTo(store, present, settings, clock, chain, d)
    ensures var r := After(chain[..|chain| - 1],
                           RetainedFrom(store, present, settings, clock, |chain|, chain[|chain| - 1]));
            r.Ok? ==> IsRetainedChain(store, present, settings, clock, chain[0], r.value)
    decreases chain[|chain| - 1].manifest.version
  {
    var child := chain[|chain| - 1].manifest;
    if StopsAt(store, present, settings, clock, child, |chain|) {
      hide RetainedFrom, After, WalkedTo;
      WalkEnds(store, present, settings, clock, chain);
    } else {
      hide RetainedFrom, After, WalkedTo, IsRetainedChain;
      WalkBreaks(store, present, settings, clock, chain);
      var next := Entry(child.parent.value, store[child.parent.value]);
      if next.manifest.version == child.parentVersion {
        StepDown(store, present, settings, clock, chain, next);
        WalkedOn(store, present, settings, clock, chain, next);
        assert (chain + [next])[..|chain|] == chain;
        WalkIsRetained(store, present, settings, clock, chain + [next]);
      }
    }
  }

  lemma StepDown(
    store: Store, present: set<Path>, settings: Settings, clock: nat, chain: seq<Entry>, next: Entry)
    requires StoreDescends(store) && chain != [] && Descends(chain[|chain| - 1].manifest) && Descends(next.manifest)
    requires var m := chain[|chain| - 1].manifest;
             && m.parent == Some(next.path) && Kept(settings, clock, |chain|, m)
             && next.path in present && next.path in store && store[next.path] == next.manifest
             && next.manifest.version == m.parentVersion
    ensures After(chain[..|chain| - 1], RetainedFrom(store, present, settings, clock, |chain|, chain[|chain| - 1]))
         == After(chain, RetainedFrom(store, present, settings, clock, |chain| + 1, next))
  {
    var older := RetainedFrom(store, present, settings, clock, |chain| + 1, next);
    if older.Ok? {
      assert chain[..|chain| - 1] + ([chain[|chain| - 1]] + older.value) == chain + older.value;
    }
  }

  // ---- Retention along a chain ----

  /** `chain` holds versions 1, 2, and so on. */
  ghost predicate Linked(chain: seq<Entry>) {
    forall i :: 0 <= i < |chain| ==> LinkedAt(chain, i)
  }

  ghost predicate LinkedAt(chain: seq<Entry>, i: nat)
    requires i < |chain|
  {
    && chain[i].manifest.version == i + 1 && chain[i].manifest.parentVersion == i
    && chain[i].manifest.parent == if i == 0 then None else Some(chain[i - 1].path)
  }

  ghost predicate Stored(store: Store, chain: seq<Entry>) {
    forall i :: 0 <= i < |chain| ==> chain[i].path in store && store[chain[i].path] == chain[i].manifest
  }

  /** Version `j + 1` of a chain of `n` keeps its parent. */
  ghost predicate KeepsParent(settings: Settings, clock: nat, chain: seq<Entry>, n: nat, j: nat)
    requires j < n <= |chain|
  {
    Kept(settings, clock, n - j, chain[j].manifest)
  }

  /** Version `i + 1` is retained while version `n` is live at `clock`. */
  ghost predicate Retains(settings: Settings, clock: nat, chain: seq<Entry>, n: nat, i: nat)
    requires i < n <= |chain|
  {
    forall j: nat :: i < j < n ==> KeepsParent(settings, clock, chain, n, j)
  }

  /** Retention only shrinks: what is retained at a later clock, with a later manifest live, was
      retained before. Nothing is asked of the times in the manifests. */
  lemma RetentionShrinks(
    settings: Settings, chain: seq<Entry>, clock: nat, n: nat, later: nat, m: nat, i: nat)
    requires i < n <= m <= |chain| && clock <= later && Retains(settings, later, chain, m, i)
    ensures Retains(settings, clock, chain, n, i)
  {
    forall j: nat | i < j < n ensures KeepsParent(settings, clock, chain, n, j) {
      assert KeepsParent(settings, later, chain, m, j);
    }
  }

  /** What is retained is a prefix of the chain, newest first. */
  lemma RetainsNewer(settings: Settings, chain: seq<Entry>, clock: nat, n: nat, i: nat, j: nat)
    requires i <= j < n <= |chain| && Retains(settings, clock, chain, n, i)
    ensures Retains(settings, clock, chain, n, j)
  {
  }

  /** More commits do not change what was retained before them. */
  lemma RetainsPrefix(settings: Settings, chain: seq<Entry>, more: seq<Entry>, clock: nat, n: nat, i: nat)
    requires i < n <= |chain|
    ensures Retains(settings, clock, chain + more, n, i) <==> Retains(settings, clock, chain, n, i)
  {
    if Retains(settings, clock, chain, n, i) {
      forall j: nat | i < j < n ensures KeepsParent(settings, clock, chain + more, n, j) {
        assert KeepsParent(settings, clock, chain, n, j);
      }
    }
    if Retains(settings, clock, chain + more, n, i) {
      forall j: nat | i < j < n ensures KeepsParent(settings, clock, chain, n, j) {
        assert KeepsParent(settings, clock, chain + more, n, j);
      }
    }
  }

  /** The walk reaches version `i + 1`: it and everything newer is retained, and can be read. */
  ghost predicate Reaches(present: set<Path>, settings: Settings, clock: nat, chain: seq<Entry>, n: nat, i: nat)
    requires i < n <= |chain|
  {
    Retains(settings, clock, chain, n, i) && forall j: nat :: i <= j < n - 1 ==> chain[j].path in present
  }

  /** From version `k + 1` the walk yields version `k + 1` down to the oldest it reaches. */
  lemma {:induction false} WalkIsPrefix(
    store: Store, present: set<Path>, settings: Settings, clock: nat, chain: seq<Entry>, n: nat, k: nat)
    requires Linked(chain) && Stored(store, chain) && StoreDescends(store) && k < n <= |chain|
    requires Descends(chain[k].manifest) && Reaches(present, settings, clock, chain, n, k)
    ensures var r := RetainedFrom(store, present, settings, clock, n - k, chain[k]);
            && r.Ok? && 0 < |r.value| <= k + 1
            && (forall d :: 0 <= d < |r.value| ==> r.value[d] == chain[k - d])
            && Reaches(present, settings, clock, chain, n, k + 1 - |r.value|)
            && (|r.value| <= k ==> !Reaches(present, settings, clock, chain, n, k - |r.value|))
    decreases k
  {
    hide Linked, StoreDescends, Stored;
    ChainAt(store, chain, k);
    var m := chain[k].manifest;
    if k > 0 {
      ChainAt(store, chain, k - 1);
      if Kept(settings, clock, n - k, m) && chain[k - 1].path in present {
        ReachesDown(present, settings, clock, chain, n, k);
        WalkIsPrefix(store, present, settings, clock, chain, n, k - 1);
        assert Entry(chain[k - 1].path, store[chain[k - 1].path]) == chain[k - 1];
      } else {
        CannotReach(present, settings, clock, chain, n, k);
      }
    }
  }

  lemma ChainAt(store: Store, chain: seq<Entry>, i: nat)
    requires Linked(chain) && Stored(store, chain) && i < |chain|
    ensures LinkedAt(chain, i) && Descends(chain[i].manifest)
    ensures chain[i].path in store && store[chain[i].path] == chain[i].manifest
  {
    assert LinkedAt(chain, i);
  }

  lemma ReachesDown(present: set<Path>, settings: Settings, clock: nat, chain: seq<Entry>, n: nat, k: nat)
    requires 0 < k < n <= |chain| && Reaches(present, settings, clock, chain, n, k)
    requires Kept(settings, clock, n - k, chain[k].manifest) && chain[k - 1].path in present
    ensures Reaches(present, settings, clock, chain, n, k - 1)
  {
    forall j: nat | k - 1 < j < n ensures KeepsParent(settings, clock, chain, n, j) {
      if j == k { assert KeepsParent(settings, clock, chain, n, k); }
    }
  }

  lemma CannotReach(present: set<Path>, settings: Settings, clock: nat, chain: seq<Entry>, n: nat, k: nat)
    requires 0 < k < n <= |chain|
    requires !Kept(settings, clock, n - k, chain[k].manifest) || chain[k - 1].path !in present
    ensures !Reaches(present, settings, clock, chain, n, k - 1)
  {
    if !Kept(settings, clock, n - k, chain[k].manifest) {
      assert !KeepsParent(settings, clock, chain, n, k);
    }
  }

  // ---- Retention in numbers ----

  /** A retained chain is the newest part of the chain it walks. */
  lemma {:induction false} WalkedAt(
    store: Store, present: set<Path>, settings: Settings, clock: nat, chain: seq<Entry>, n: nat,
    walked: seq<Entry>, d: nat)
    requires Linked(chain) && Stored(store, chain) && 0 < n <= |chain| && d < |walked|
    requires IsRetainedChain(store, present, settings, clock, chain[n - 1], walked)
    ensures d < n && walked[d] == chain[n - 1 - d]
    decreases d
  {
    if d > 0 {
      WalkedAt(store, present, settings, clock, chain, n, walked, d - 1);
      assert WalkedTo(store, present, settings, clock, walked, d);
      assert LinkedAt(chain, n - d);
      ChainAt(store, chain, n - 1 - d);
    }
  }

  /** The ancestor at distance `e` is among the nearest, or the manifest that superseded it, at distance
      `e - 1`, was created less than the retention before `clock`. */
  ghost predicate NearOrYoung(settings: Settings, clock: nat, chain: seq<Entry>, n: nat, e: nat)
    requires 1 <= e <= n <= |chain|
  {
    e <= settings.keepManifests || Young(settings, clock, chain[n - e].manifest)
  }

  /** While its manifests are there, the ancestor at distance `d` is retained exactly when every
      ancestor up to it is among the `keepManifests` nearest, or was superseded less than the retention
      before `clock`. */
  lemma RetainedByDistance(
    store: Store, present: set<Path>, settings: Settings, clock: nat, chain: seq<Entry>, n: nat,
    walked: seq<Entry>, d: nat)
    requires Linked(chain) && Stored(store, chain) && d < n <= |chain|
    requires forall i :: 0 <= i < n ==> chain[i].path in present
    requires IsRetainedChain(store, present, settings, clock, chain[n - 1], walked)
    ensures chain[n - 1 - d] in walked <==> forall e :: 1 <= e <= d ==> NearOrYoung(settings, clock, chain, n, e)
  {
    hide Linked, Stored;
    forall k | 0 <= k < |walked| ensures k < n && walked[k] == chain[n - 1 - k] {
      WalkedAt(store, present, settings, clock, chain, n, walked, k);
    }
    if d < |walked| {
      assert walked[d] in walked;
      forall e | 1 <= e <= d ensures NearOrYoung(settings, clock, chain, n, e) {
        assert WalkedTo(store, present, settings, clock, walked, e) && walked[e - 1] == chain[n - e];
      }
    } else {
      NotWalked(store, chain, n, walked, d);
      var e := |walked|;
      assert walked[e - 1] == chain[n - e];
      ChainAt(store, chain, n - e);
      ChainAt(store, chain, n - e - 1);
      assert !NearOrYoung(settings, clock, chain, n, e);
    }
  }

  lemma NotWalked(store: Store, chain: seq<Entry>, n: nat, walked: seq<Entry>, d: nat)
    requires Linked(chain) && Stored(store, chain) && |walked| <= d < n <= |chain|
    requires forall k :: 0 <= k < |walked| ==> walked[k] == chain[n - 1 - k]
    ensures chain[n - 1 - d] !in walked
  {
    forall k | 0 <= k < |walked| ensures walked[k] != chain[n - 1 - d] {
      assert LinkedAt(chain, n - 1 - k) && LinkedAt(chain, n - 1 - d);
    }
  }

  /** The retention the commit protocol is held to is the same rule. */
  lemma RetainsByDistance(settings: Settings, clock: nat, chain: seq<Entry>, n: nat, i: nat)
    requires i < n <= |chain|
    ensures Retains(settings, clock, chain, n, i)
       <==> forall e :: 1 <= e <= n - 1 - i ==> NearOrYoung(settings, clock, chain, n, e)
  {
    forall e | 1 <= e <= n - 1 - i
      ensures NearOrYoung(settings, clock, chain, n, e) <==> KeepsParent(settings, clock, chain, n, n - e)
    {
    }
    if forall e :: 1 <= e <= n - 1 - i ==> NearOrYoung(settings, clock, chain, n, e) {
      forall j: nat | i < j < n ensures KeepsParent(settings, clock, chain, n, j) {
        assert NearOrYoung(settings, clock, chain, n, n - j);
      }
    }
  }

  /** Version `i + 1` of a chain of `n` was live at some time in the last `retention` before `clock`: it
      was, from its creation until the creation of the next. */
  ghost predicate LiveSince(settings: Settings, clock: nat, chain: seq<Entry>, n: nat, i: nat)
    requires i < n <= |chain|
  {
    exists t: nat ::
      && Recent(settings, clock, t) && chain[i].manifest.createdAt <= t
      && (i + 1 < n ==> t <= chain[i + 1].manifest.createdAt)
  }

  predicate Recent(settings: Settings, clock: nat, t: nat) {
    t <= clock < t + settings.retention
  }

  /** Manifests are created in order, and none after `clock`. */
  ghost predicate CreatedInOrder(chain: seq<Entry>, n: nat, clock: nat)
    requires n <= |chain|
  {
    forall i, j :: 0 <= i <= j < n ==> chain[i].manifest.createdAt <= chain[j].manifest.createdAt <= clock
  }

  /** With creation times in order, the retained manifests are the `keepManifests + 1` newest and those
      that were live at some time in the last `retention`. */
  lemma RetainedByAge(
    store: Store, present: set<Path>, settings: Settings, clock: nat, chain: seq<Entry>, n: nat,
    walked: seq<Entry>, d: nat)
    requires Linked(chain) && Stored(store, chain) && d < n <= |chain|
    requires forall i :: 0 <= i < n ==> chain[i].path in present
    requires IsRetainedChain(store, present, settings, clock, chain[n - 1], walked)
    requires CreatedInOrder(chain, n, clock) && clock < U64_MAX
    ensures chain[n - 1 - d] in walked <==>
            d < settings.keepManifests + 1 || LiveSince(settings, clock, chain, n, n - 1 - d)
  {
    RetainedByDistance(store, present, settings, clock, chain, n, walked, d);
    hide Linked, Stored, IsRetainedChain;
    if d > settings.keepManifests {
      var child := chain[n - d].manifest;
      if Young(settings, clock, child) {
        assert Recent(settings, clock, child.createdAt);
      }
      if LiveSince(settings, clock, chain, n, n - 1 - d) {
        assert Young(settings, clock, child);
      }
      assert NearOrYoung(settings, clock, chain, n, d) <==> Young(settings, clock, child);
    }
  }

  // ---- What a GC run keeps ----

  function ChainPaths(chain: seq<Entry>): (r: set<Path>)
  {
    if chain == [] then {} else ChainPaths(chain[..|chain| - 1]) + {chain[|chain| - 1].path}
  }

  function ChainRefs(chain: seq<Entry>): (r: set<Path>)
  {
    if chain == [] then {} else ChainRefs(chain[..|chain| - 1]) + Refs(chain[|chain| - 1].manifest)
  }

  /** `path` is a walked manifest, or one of them references it. */
  ghost predicate WalkedKeeps(walked: seq<Entry>, path: Path) {
    exists d :: 0 <= d < |walked| && (walked[d].path == path || path in Refs(walked[d].manifest))
  }

  /** A listed manifest that is still there references `path`. */
  ghost predicate ListedKeeps(store: Store, present: set<Path>, listed: seq<Path>, path: Path) {
    exists q :: q in listed && q in store && q in present && path in Refs(store[q])
  }

  /** `keep` holds the walked manifests, and what they and the listed manifests reference, and nothing
      else. */
  ghost predicate KeepsExactly(
    store: Store, present: set<Path>, walked: seq<Entry>, listed: seq<Path>, keep: set<Path>)
  {
    forall path :: path in keep <==> WalkedKeeps(walked, path) || ListedKeeps(store, present, listed, path)
  }

  /** `collection_objects`: the retained manifests with all they reference, and what every other
      listed manifest references, without that manifest. */
  method CollectionObjects(
    store: Store, present: set<Path>, settings: Settings, clock: nat, live: Option<Entry>, listed: seq<Path>)
    returns (r: Result<set<Path>, Corrupt>, ghost walked: seq<Entry>)
    requires StoreDescends(store) && (live.Some? ==> Descends(live.value.manifest))
    ensures r.Ok? && live.None? ==> walked == []
    ensures r.Ok? && live.Some? ==> IsRetainedChain(store, present, settings, clock, live.value, walked)
    ensures r.Ok? && (live.Some? ==> live.value.path in store && store[live.value.path] == live.value.manifest) ==>
              KeepsExactly(store, present, walked, listed, r.value)
    ensures var chain := if live.None? then Ok([]) else RetainedFrom(store, present, settings, clock, 1, live.value);
            && (r.Ok? <==> chain.Ok?)
            && (r.Ok? ==> r.value == KeepOf(store, present, chain.value, listed))
  {
    hide Refs, RetainedFrom, IsRetainedChain, StoredEntries, KeepsExactly, StoreDescends;
    var chain: seq<Entry> := [];
    if live.Some? {
      var found := RetainedChain(store, present, settings, clock, live.value);
      if found.Err? {
        return Err(Corrupt), [];
      }
      chain := found.value;
    }
    var keep, retained := {}, {};
    for i := 0 to |chain|
      invariant keep == ChainPaths(chain[..i]) + ChainRefs(chain[..i]) && retained == ChainPaths(chain[..i])
    {
      assert chain[..i + 1][..i] == chain[..i];
      keep := KeepReferenced(chain[i].manifest, keep);
      keep := keep + {chain[i].path};
      retained := retained + {chain[i].path};
    }
    assert chain[..|chain|] == chain;
    ghost var kept := keep;
    for i := 0 to |listed|
      invariant keep == kept + UnretainedRefs(store, present, retained, listed[..i])
    {
      assert listed[..i + 1][..i] == listed[..i];
      if listed[i] in retained || listed[i] !in store || listed[i] !in present {
        continue;
      }
      keep := KeepReferenced(store[listed[i]], keep);
    }
    assert listed[..|listed|] == listed;
    r, walked := Ok(keep), chain;
    if live.None? || (live.value.path in store && store[live.value.path] == live.value.manifest) {
      WalkedStored(store, present, settings, clock, live, chain);
      KeepIsExact(store, present, chain, listed);
    }
  }

  /** Every walked entry is what the store holds. */
  ghost predicate StoredEntries(store: Store, walked: seq<Entry>) {
    forall d :: 0 <= d < |walked| ==> walked[d].path in store && store[walked[d].path] == walked[d].manifest
  }

  lemma WalkedStored(
    store: Store, present: set<Path>, settings: Settings, clock: nat, live: Option<Entry>, walked: seq<Entry>)
    requires live.None? ==> walked == []
    requires live.Some? ==>
               && live.value.path in store && store[live.value.path] == live.value.manifest
               && IsRetainedChain(store, present, settings, clock, live.value, walked)
    ensures StoredEntries(store, walked)
  {
    forall d | 0 <= d < |walked| ensures walked[d].path in store && store[walked[d].path] == walked[d].manifest {
      if d > 0 { assert WalkedTo(store, present, settings, clock, walked, d); }
    }
  }

  lemma {:induction false} InChainRefs(chain: seq<Entry>, path: Path) returns (d: nat)
    requires path in ChainRefs(chain)
    ensures d < |chain| && path in Refs(chain[d].manifest)
  {
    var n := |chain| - 1;
    if path in Refs(chain[n].manifest) {
      d := n;
    } else {
      d := InChainRefs(chain[..n], path);
    }
  }

  lemma {:induction false} OfUnretained(
    store: Store, present: set<Path>, retained: set<Path>, listed: seq<Path>, path: Path)
    requires path in UnretainedRefs(store, present, retained, listed)
    ensures ListedKeeps(store, present, listed, path)
  {
    var n := |listed| - 1;
    var q := listed[n];
    if !(q !in retained && q in store && q in present && path in Refs(store[q])) {
      OfUnretained(store, present, retained, listed[..n], path);
      var q :| q in listed[..n] && q in store && q in present && path in Refs(store[q]);
      assert q in listed;
    }
  }

  lemma WalkedIsKept(chain: seq<Entry>, path: Path)
    ensures WalkedKeeps(chain, path) <==> path in ChainPaths(chain) + ChainRefs(chain)
  {
    hide Refs;
    if WalkedKeeps(chain, path) {
      var d :| 0 <= d < |chain| && (chain[d].path == path || path in Refs(chain[d].manifest));
      InChainPaths(chain, d);
    }
    if path in ChainPaths(chain) {
      var d := ChainPathOf(chain, path);
    } else if path in ChainRefs(chain) {
      var d := InChainRefs(chain, path);
    }
  }

  lemma ListedIsKept(store: Store, present: set<Path>, chain: seq<Entry>, listed: seq<Path>, path: Path)
    requires StoredEntries(store, chain) && ListedKeeps(store, present, listed, path)
    ensures path in KeepOf(store, present, chain, listed)
  {
    hide Refs;
    var q :| q in listed && q in store && q in present && path in Refs(store[q]);
    if q in ChainPaths(chain) {
      var d := ChainPathOf(chain, q);
      InChainPaths(chain, d);
    } else {
      InUnretained(store, present, ChainPaths(chain), listed, q);
    }
  }

  lemma KeepIsExact(store: Store, present: set<Path>, chain: seq<Entry>, listed: seq<Path>)
    requires StoredEntries(store, chain)
    ensures KeepsExactly(store, present, chain, listed, KeepOf(store, present, chain, listed))
  {
    hide WalkedKeeps, ListedKeeps, ChainPaths, ChainRefs, UnretainedRefs, StoredEntries;
    forall path
      ensures path in KeepOf(store, present, chain, listed)
         <==> WalkedKeeps(chain, path) || ListedKeeps(store, present, listed, path)
    {
      WalkedIsKept(chain, path);
      if ListedKeeps(store, present, listed, path) {
        ListedIsKept(store, present, chain, listed, path);
      }
      if path in UnretainedRefs(store, present, ChainPaths(chain), listed) {
        OfUnretained(store, present, ChainPaths(chain), listed, path);
      }
    }
  }

  function UnretainedRefs(store: Store, present: set<Path>, retained: set<Path>, listed: seq<Path>): (r: set<Path>)
  {
    if listed == [] then {}
    else
      var path := listed[|listed| - 1];
      UnretainedRefs(store, present, retained, listed[..|listed| - 1])
      + if path !in retained && path in store && path in present then Refs(store[path]) else {}
  }

  /** Everything kept, for the retained `chain` and the manifests `listed`. */
  function KeepOf(store: Store, present: set<Path>, chain: seq<Entry>, listed: seq<Path>): set<Path> {
    ChainPaths(chain) + ChainRefs(chain) + UnretainedRefs(store, present, ChainPaths(chain), listed)
  }

  lemma {:induction false} InChainPaths(chain: seq<Entry>, d: nat)
    requires d < |chain|
    ensures chain[d].path in ChainPaths(chain) && Refs(chain[d].manifest) <= ChainRefs(chain)
  {
    var n := |chain| - 1;
    if d < n {
      InChainPaths(chain[..n], d);
      assert chain[..n][d] == chain[d];
    }
  }

  lemma {:induction false} ChainPathOf(chain: seq<Entry>, path: Path) returns (d: nat)
    requires path in ChainPaths(chain)
    ensures d < |chain| && chain[d].path == path
  {
    var n := |chain| - 1;
    if chain[n].path == path {
      d := n;
    } else {
      d := ChainPathOf(chain[..n], path);
    }
  }

  lemma {:induction false} InUnretained(
    store: Store, present: set<Path>, retained: set<Path>, listed: seq<Path>, path: Path)
    requires path in listed && path !in retained && path in store && path in present
    ensures Refs(store[path]) <= UnretainedRefs(store, present, retained, listed)
  {
    var n := |listed| - 1;
    if listed[n] != path {
      assert listed == listed[..n] + [listed[n]];
      InUnretained(store, present, retained, listed[..n], path);
    }
  }

  /** A GC run keeps every manifest its walk reaches, and what every listed manifest references. */
  lemma KeepCovers(
    store: Store, present: set<Path>, settings: Settings, clock: nat, chain: seq<Entry>, n: nat,
    listed: seq<Path>, path: Path)
    requires Linked(chain) && Stored(store, chain) && StoreDescends(store) && 0 < n <= |chain|
    requires Descends(chain[n - 1].manifest)
    ensures var r := RetainedFrom(store, present, settings, clock, 1, chain[n - 1]);
            && r.Ok?
            && var keep := KeepOf(store, present, r.value, listed);
               && (forall i :: 0 <= i < n && Reaches(present, settings, clock, chain, n, i) ==> chain[i].path in keep)
               && (path in listed && path in store && path in present ==> Refs(store[path]) <= keep)
  {
    hide Linked, StoreDescends, ChainPaths, ChainRefs, UnretainedRefs, Refs;
    WalkIsPrefix(store, present, settings, clock, chain, n, n - 1);
    var walked := RetainedFrom(store, present, settings, clock, 1, chain[n - 1]).value;
    forall i | 0 <= i < n && Reaches(present, settings, clock, chain, n, i)
        ensures chain[i].path in ChainPaths(walked) {
      if i < n - |walked| {
        ReachesNewer(present, settings, clock, chain, n, i, n - 1 - |walked|);
      } else {
        InChainPaths(walked, n - 1 - i);
      }
    }
    if path in listed && path in store && path in present {
      if path in ChainPaths(walked) {
        var d := ChainPathOf(walked, path);
        InChainPaths(walked, d);
        assert walked[d] == chain[n - 1 - d];
      } else {
        InUnretained(store, present, ChainPaths(walked), listed, path);
      }
    }
  }

  lemma ReachesNewer(present: set<Path>, settings: Settings, clock: nat, chain: seq<Entry>, n: nat, i: nat, j: nat)
    requires i <= j < n <= |chain| && Reaches(present, settings, clock, chain, n, i)
    ensures Reaches(present, settings, clock, chain, n, j)
  {
    RetainsNewer(settings, chain, clock, n, i, j);
  }
}
