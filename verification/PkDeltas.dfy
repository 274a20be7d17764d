/** The PK index's watermark, and replaying the PK deltas of a chain
    (crates/loams-collection/src/pkindex.rs, `replayed_deltas` of target.rs). */
module PkDeltas {
  import opened Prelude
  import opened Splits
  import opened Resolve
  import opened Offsets
  import opened RowSets
  import opened Commits
  import opened History

  /** The manifest a PK index reflects. */
  datatype Watermark = Watermark(version: nat, applied: Applied)

  /** The watermark of an index that has none. */
  const NO_MARK: Watermark := Watermark(0, map[])

  /** What a rebuild in several writes writes first. */
  const REBUILDING: Watermark := Watermark(0, map[U32_MAX := U64_MAX])

  type Store = map<Path, Manifest>

  /** The parent of a manifest is of a lower version. */
  predicate Descends(m: Manifest) {
    m.parent.Some? ==> m.parentVersion < m.version
  }

  ghost predicate StoreDescends(store: Store) {
    forall p :: p in store ==> Descends(store[p])
  }

  /** The manifests an index does not reflect yet, newest first, or why there is no saying. */
  datatype Walked = Found(newer: seq<Manifest>) | Gone | Unmatched | Broken

  /** Walks from `m` to the manifest `mark` reflects. Only the objects in `available` can be read. */
  function Walk(store: Store, available: set<Path>, mark: Watermark, m: Manifest): (r: Walked)
    requires StoreDescends(store) && Descends(m)
    decreases m.version
  {
    if m.applied == mark.applied then Found([])
    else if m.version == 0 then Unmatched
    else
      match m.parent
      case None => if mark == NO_MARK then Found([m]) else Unmatched
      case Some(path) =>
        if path !in store || path !in available then Gone
        else if store[path].version != m.parentVersion then Broken
        else
          match Walk(store, available, mark, store[path])
          case Found(newer) => Found([m] + newer)
          case Gone => Gone
          case Unmatched => Unmatched
          case Broken => Broken
  }

  /** The PK changes of `newer`, merged oldest first. */
  function Merged(newer: seq<Manifest>): (d: Delta)
  {
    if newer == [] then map[] else Merged(newer[1..]) + Replay(newer[0])
  }

  predicate DeltaReadable(available: set<Path>, m: Manifest) {
    m.kind.LinkApply? && m.delta.Some? ==> m.delta.value.path in available
  }

  ghost predicate AllReadable(available: set<Path>, newer: seq<Manifest>) {
    forall i :: 0 <= i < |newer| ==> DeltaReadable(available, newer[i])
  }

  datatype Replayed = Deltas(changes: Delta) | ReplayGone | ReplayUnmatched | ReplayBroken

  ghost function ReplayFrom(store: Store, available: set<Path>, mark: Watermark, m: Manifest): Replayed
    requires StoreDescends(store) && Descends(m)
  {
    match Walk(store, available, mark, m)
    case Gone => ReplayGone
    case Unmatched => ReplayUnmatched
    case Broken => ReplayBroken
    case Found(newer) =>
      if AllReadable(available, newer) then Deltas(Merged(newer)) else ReplayGone
  }

  /** The first loop of `replayed_deltas`. */
  method WalkBack(store: Store, available: set<Path>, mark: Watermark, parent: Manifest) returns (r: Walked)
    requires StoreDescends(store) && Descends(parent)
    ensures r == Walk(store, available, mark, parent)
  {
    var newer: seq<Manifest> := [];
    var m := parent;
    while m.applied != mark.applied
      invariant Descends(m)
      invariant Walk(store, available, mark, parent)
             == match Walk(store, available, mark, m)
                case Found(rest) => Found(newer + rest)
                case other => other
      decreases m.version
    {
      if m.version == 0 {
        return Unmatched;
      }
      newer := newer + [m];
      if m.parent.None? {
        return if mark == NO_MARK then Found(newer) else Unmatched;
      }
      var path := m.parent.value;
      if path !in store || path !in available {
        return Gone;
      }
      if store[path].version != m.parentVersion {
        return Broken;
      }
      StepBack(store, available, mark, m, newer[..|newer| - 1]);
      m := store[path];
    }
    assert newer + [] == newer;
    r := Found(newer);
  }

  lemma StepBack(store: Store, available: set<Path>, mark: Watermark, m: Manifest, before: seq<Manifest>)
    requires StoreDescends(store) && Descends(m) && m.applied != mark.applied && m.version > 0
    requires m.parent.Some? && m.parent.value in store && m.parent.value in available
    requires store[m.parent.value].version == m.parentVersion
    ensures Walk(store, available, mark, m).Found? <==> Walk(store, available, mark, store[m.parent.value]).Found?
    ensures var below := Walk(store, available, mark, store[m.parent.value]);
            if below.Found?
            then before + Walk(store, available, mark, m).newer == before + [m] + below.newer
            else Walk(store, available, mark, m) == below
  {
  }

  /** The PK changes between the manifest `mark` reflects and `parent`. */
  method ReplayedDeltas(store: Store, available: set<Path>, mark: Watermark, parent: Manifest) returns (r: Replayed)
    requires StoreDescends(store) && Descends(parent)
    ensures r == ReplayFrom(store, available, mark, parent)
  {
    var walked := WalkBack(store, available, mark, parent);
    match walked {
      case Gone => return ReplayGone;
      case Unmatched => return ReplayUnmatched;
      case Broken => return ReplayBroken;
      case Found(_) =>
    }
    var newer := walked.newer;
    var merged: Delta := map[];
    for i := |newer| downto 0
      invariant merged == Merged(newer[i..])
      invariant forall j :: i <= j < |newer| ==> DeltaReadable(available, newer[j])
    {
      assert newer[i..][1..] == newer[i + 1..];
      var m := newer[i];
      if !m.kind.LinkApply? || m.delta.None? {
        assert merged + map[] == merged;
        continue;
      }
      if m.delta.value.path !in available {
        assert !DeltaReadable(available, newer[i]);
        return ReplayGone;
      }
      merged := merged + m.delta.value.entries;
    }
    assert newer[0..] == newer;
    r := Deltas(merged);
  }

  // ---- Replay along a chain ----

  /** The store holds every manifest of the chain. */
  ghost predicate StoreHolds(store: Store, history: seq<Commit>) {
    forall i :: 0 <= i < |history| ==> history[i].path in store && store[history[i].path] == history[i].manifest
  }

  /** The watermark of version `i`. */
  function MarkAt(history: seq<Commit>, i: nat): Watermark
    requires i <= |history|
  {
    Watermark(i, At(history, i).applied)
  }

  /** Applying one delta and then another is applying them merged. */
  lemma DeltasCompose(m: KeyMap, a: Delta, b: Delta)
    ensures ApplyDelta(ApplyDelta(m, a), b) == ApplyDelta(m, a + b)
  {
  }

  lemma MergedStep(m: Manifest, newer: seq<Manifest>)
    ensures Merged([m] + newer) == Merged(newer) + Replay(m)
  {
    assert ([m] + newer)[1..] == newer;
  }

  lemma AtDescends(rules: Rules, history: seq<Commit>, i: nat)
    requires ChainOk(rules, history) && i <= |history|
    ensures Descends(At(history, i))
  {
    hide ChainOk, Whole, Follows, BatchFits;
    VersionAt(rules, history, i);
    if i > 0 {
      hide At, PathAt;
      LinkAt(rules, history, i - 1);
      FollowsOffsets(rules, At(history, i - 1), At(history, i), history[i - 1].batch);
    }
  }

  /** From any version of a chain, an index that reflects an older version of it is always matched,
      and the deltas found on the way take that version's key map to the newer one's. */
  lemma {:induction false} WalkFinds(
    rules: Rules, history: seq<Commit>, store: Store, available: set<Path>, i: nat, j: nat)
    requires ChainOk(rules, history) && StoreHolds(store, history) && StoreDescends(store) && i <= j <= |history|
    requires Descends(At(history, j))
    ensures var w := Walk(store, available, MarkAt(history, i), At(history, j));
            && (w.Found? || w.Gone?)
            && (w.Found? ==>
                  KeyRows(At(history, j).lance.rows)
                  == ApplyDelta(KeyRows(At(history, i).lance.rows), Merged(w.newer)))
    decreases j
  {
    hide ChainOk, Follows, Whole, KeyRows, ApplyDelta, Merged, StoreDescends;
    var mark, m := MarkAt(history, i), At(history, j);
    VersionAt(rules, history, j);
    if m.applied == mark.applied {
      AppliedDecides(rules, history, i, j);
      MergedNone();
      NothingToApply(KeyRows(At(history, i).lance.rows));
    } else {
      var before := At(history, j - 1);
      LinkAt(rules, history, j - 1);
      FollowsKeys(rules, before, m, history[j - 1].batch);
      FollowsOffsets(rules, before, m, history[j - 1].batch);
      if j == 1 {
        MergedStep(m, []);
        MergedNone();
        assert [m] + [] == [m] && map[] + Replay(m) == Replay(m);
      } else {
        AtDescends(rules, history, j - 1);
        WalkFinds(rules, history, store, available, i, j - 1);
        var path := history[j - 2].path;
        assert store[path] == before;
        WalkStep(store, available, mark, m, path);
        var w := Walk(store, available, mark, before);
        if path in available && w.Found? {
          MergedStep(m, w.newer);
          DeltasCompose(KeyRows(At(history, i).lance.rows), Merged(w.newer), Replay(m));
        }
      }
    }
  }

  lemma MergedNone()
    ensures Merged([]) == map[]
  {
  }

  lemma WalkStep(store: Store, available: set<Path>, mark: Watermark, m: Manifest, path: Path)
    requires StoreDescends(store) && Descends(m) && m.applied != mark.applied && m.version > 0
    requires m.parent == Some(path) && path in store && store[path].version == m.parentVersion
    ensures path !in available ==> Walk(store, available, mark, m).Gone?
    ensures path in available ==>
              var w := Walk(store, available, mark, store[path]);
              if w.Found? then Walk(store, available, mark, m) == Found([m] + w.newer)
              else Walk(store, available, mark, m) == w
  {
  }

  /** The version after `k` has other offsets than version `i`. */
  ghost predicate Moved(history: seq<Commit>, i: nat, k: nat)
    requires i <= |history| && k < |history|
  {
    At(history, k + 1).applied != At(history, i).applied
  }

  /** Version `k` and the delta of the next one can be read. */
  ghost predicate StepReadable(history: seq<Commit>, available: set<Path>, k: nat)
    requires k < |history|
  {
    (k == 0 || history[k - 1].path in available) && DeltaReadable(available, At(history, k + 1))
  }

  /** Everything between version `j` and the newest version with the offsets of version `i` can be
      read. */
  ghost predicate CanReplay(history: seq<Commit>, available: set<Path>, i: nat, j: nat)
    requires i <= j <= |history|
  {
    forall k: nat :: i <= k < j && Moved(history, i, k) ==> StepReadable(history, available, k)
  }

  lemma SameBetween(rules: Rules, history: seq<Commit>, i: nat, k: nat, j: nat)
    requires ChainOk(rules, history) && i <= k <= j <= |history|
    requires At(history, i).applied == At(history, j).applied
    ensures At(history, k).applied == At(history, i).applied
  {
    hide *;
    AppliedMonotone(rules, history, i, k);
    AppliedMonotone(rules, history, k, j);
    AppliedAntisymmetric(At(history, i).applied, At(history, k).applied);
  }

  lemma NoReplay(rules: Rules, history: seq<Commit>, available: set<Path>, i: nat, j: nat)
    requires ChainOk(rules, history) && i <= j <= |history|
    requires At(history, i).applied == At(history, j).applied
    ensures CanReplay(history, available, i, j)
  {
    hide ChainOk, StepReadable, At;
    forall k: nat | i <= k < j ensures !Moved(history, i, k) {
      SameBetween(rules, history, i, k + 1, j);
    }
  }

  lemma MoreReadable(available: set<Path>, m: Manifest, newer: seq<Manifest>)
    ensures AllReadable(available, [m] + newer) <==> DeltaReadable(available, m) && AllReadable(available, newer)
  {
    var all := [m] + newer;
    assert all[0] == m && forall i :: 0 <= i < |newer| ==> all[i + 1] == newer[i];
  }

  /** Replay never gives up on deltas it could read: it finds them exactly when every manifest and
      delta it needs is there. */
  lemma {:induction false} ReplayWhen(
    rules: Rules, history: seq<Commit>, store: Store, available: set<Path>, i: nat, j: nat)
    requires ChainOk(rules, history) && StoreHolds(store, history) && StoreDescends(store) && i <= j <= |history|
    requires Descends(At(history, j))
    ensures var w := Walk(store, available, MarkAt(history, i), At(history, j));
            w.Found? && AllReadable(available, w.newer) <==> CanReplay(history, available, i, j)
    decreases j
  {
    hide ChainOk, Follows, Whole, StoreDescends, DeltaReadable, CanReplay, AllReadable;
    var mark, m := MarkAt(history, i), At(history, j);
    VersionAt(rules, history, j);
    if m.applied == mark.applied {
      NoReplay(rules, history, available, i, j);
      NoneReadable(available);
    } else {
      LinkAt(rules, history, j - 1);
      FollowsOffsets(rules, At(history, j - 1), m, history[j - 1].batch);
      ReplayStep(history, available, i, j);
      if j == 1 {
        NoReplay(rules, history, available, i, 0);
        MoreReadable(available, m, []);
        NoneReadable(available);
        assert [m] + [] == [m];
      } else {
        AtDescends(rules, history, j - 1);
        ReplayWhen(rules, history, store, available, i, j - 1);
        var path := history[j - 2].path;
        assert store[path] == At(history, j - 1);
        WalkStep(store, available, mark, m, path);
        var w := Walk(store, available, mark, store[path]);
        if w.Found? { MoreReadable(available, m, w.newer); }
      }
    }
  }

  lemma NoneReadable(available: set<Path>)
    ensures AllReadable(available, [])
  {
  }

  lemma ReplayStep(history: seq<Commit>, available: set<Path>, i: nat, j: nat)
    requires i < j <= |history| && At(history, j).applied != At(history, i).applied
    ensures CanReplay(history, available, i, j)
       <==> CanReplay(history, available, i, j - 1) && StepReadable(history, available, j - 1)
  {
    hide StepReadable, At;
  }

  /** Replaying deltas is rebuilding: an index that is right for an older version ends up with
      exactly the live rows of the newer one. It is never unmatched or broken, and the deltas are gone only
      when something on the way cannot be read. */
  lemma ReplayIsRebuild(
    rules: Rules, history: seq<Commit>, store: Store, available: set<Path>, i: nat, j: nat, keys: KeyMap)
    requires ChainOk(rules, history) && StoreHolds(store, history) && StoreDescends(store) && i <= j <= |history|
    requires Descends(At(history, j)) && keys == KeyRows(At(history, i).lance.rows)
    ensures var r := ReplayFrom(store, available, MarkAt(history, i), At(history, j));
            && (r.Deltas? || r.ReplayGone?) && (r.Deltas? <==> CanReplay(history, available, i, j))
            && (r.Deltas? ==> ApplyDelta(keys, r.changes) == KeyRows(At(history, j).lance.rows))
  {
    WalkFinds(rules, history, store, available, i, j);
    ReplayWhen(rules, history, store, available, i, j);
    hide ChainOk, StoreHolds, StoreDescends, Walk, KeyRows, ApplyDelta, Merged, At;
  }
}
