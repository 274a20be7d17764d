/** The commit target's cached state: the parent it remembers and its PK index handle
    (`CollectionTarget` of crates/loams-collection/src/target.rs). */
module CommitTarget {
  import opened Prelude
  import opened PrimaryKeys
  import opened Splits
  import opened Resolve
  import opened Rounds
  import opened Batching
  import opened Offsets
  import opened RowLocator
  import opened CommitSteps
  import opened RowSets
  import opened Commits
  import opened History
  import opened PkDeltas
  import opened PkIndexes
  import opened Protocol
  import opened ProtocolSafety

  /** `pk_row_ids`: the row of every key of a Lance version. */
  method LiveKeys(rows: RowSet) returns (live: KeyMap)
    requires UniqueKeys(rows)
    ensures live == KeyRows(rows)
  {
    live := map[];
    var todo := rows.Keys;
    while todo != {}
      invariant todo <= rows.Keys
      invariant forall k :: k in live ==> live[k] in rows.Keys - todo && KeyAt(rows, live[k]) == k
      invariant forall r :: r in rows.Keys - todo ==> KeyAt(rows, r) in live && live[KeyAt(rows, r)] == r
      decreases todo
    {
      var r :| r in todo;
      live := live[KeyAt(rows, r) := r];
      todo := todo - {r};
    }
    ExactIsKeyRows(live, rows);
  }

  /** How `repair` ends: the index reflects the parent, or is ahead of it, or something failed. */
  datatype Repaired = To(mark: Watermark) | AheadOfParent(mark: Watermark) | Failed

  /** The chain a target works on, and the manifests it can read. */
  datatype World = World(rules: Rules, history: seq<Commit>, store: Store, available: set<Path>)

  ghost predicate WorldOk(world: World) {
    ChainOk(world.rules, world.history) && StoreHolds(world.store, world.history) && StoreDescends(world.store)
  }

  lemma ParentFacts(world: World, p: Parent)
    requires WorldOk(world) && ParentOk(world.history, p)
    ensures UniqueKeys(p.manifest.lance.rows) && Descends(p.manifest) && p.manifest.applied != REBUILDING.applied
  {
    VersionAt(world.rules, world.history, p.manifest.version);
    AtDescends(world.rules, world.history, p.manifest.version);
    hide ChainOk, StoreHolds, StoreDescends;
    assert U32_MAX in REBUILDING.applied;
  }

  /** An index whose watermark is above `p` and has other offsets. */
  predicate IsAhead(mark: Watermark, p: Parent) {
    mark != REBUILDING && mark.applied != p.manifest.applied && mark.version > p.manifest.version
  }

  /** Brings a fresh handle's index to `p`, unless the index is ahead of it: nothing but a write that
      fails can keep it from there. Whatever write fails, the index stays one that is right for some
      version or says that it is being rebuilt; and while the deltas can be read, it never says so. */
  method RepairIndex(index: PkIndex, p: Parent, store: Store, available: set<Path>, chunk: nat, ghost world: World)
    returns (r: Repaired)
    requires chunk > 0 && WorldOk(world) && world.store == store && world.available == available
    requires ParentOk(world.history, p) && IndexTrue(world.history, index.Contents())
    modifies index
    ensures IndexTrue(world.history, index.Contents())
    ensures r.To? ==>
              && r.mark == index.mark && r.mark.applied == p.manifest.applied
              && index.keys == KeyRows(p.manifest.lance.rows)
    ensures old(index.mark).applied == p.manifest.applied ==> r.To? && index.Contents() == old(index.Contents())
    ensures r.AheadOfParent? <==> IsAhead(old(index.mark), p)
    ensures r.AheadOfParent? ==> index.Contents() == old(index.Contents()) && r.mark == index.mark
    ensures index.failures == old(index.failures) + if r.Failed? then 1 else 0
    ensures old(index.mark) != REBUILDING && old(index.mark).version <= p.manifest.version
            && CanReplay(world.history, available, old(index.mark).version, p.manifest.version) ==>
              || index.Contents() == old(index.Contents())
              || index.Contents() == Index(KeyRows(p.manifest.lance.rows), Protocol.Target(p))
  {
    ParentFacts(world, p);
    hide WorldOk, KeyRows, UniqueKeys, Completes, ApplyDelta, ReplayFrom, CanReplay;
    var current := index.mark;
    var target := Watermark(p.manifest.version, p.manifest.applied);
    if current.applied == p.manifest.applied {
      SameOffsets(world, p, index.Contents());
      return To(current);
    }
    var live: KeyMap := map[];
    if current != REBUILDING {
      if current.version > p.manifest.version {
        return AheadOfParent(current);
      }
      RepairDecides(world, p, index.Contents());
      var replay := ReplayedDeltas(store, available, current, p.manifest);
      if replay.ReplayBroken? {
        return Failed;
      }
      if replay.Deltas? {
        var changes := ListDelta(replay.changes);
        ListsApply(index.Contents(), changes, replay.changes);
        WriteWithMark(index.Contents(), changes, target);
        var ok := index.Write(changes + [Mark(target)]);
        TargetIsRight(world.history, p, Index(KeyRows(p.manifest.lance.rows), target));
        return if ok then To(target) else Failed;
      }
    }
    live := LiveKeys(p.manifest.lance.rows);
    var ok := index.Rebuild(live, target, chunk);
    TargetIsRight(world.history, p, Index(KeyRows(p.manifest.lance.rows), target));
    r := if ok then To(target) else Failed;
  }

  lemma TargetIsRight(history: seq<Commit>, p: Parent, x: Index)
    requires ParentOk(history, p) && x == Index(KeyRows(p.manifest.lance.rows), Protocol.Target(p))
    ensures Right(history, x)
  {
    hide KeyRows;
  }

  lemma WriteWithMark(index: Index, changes: seq<Entry>, target: Watermark)
    ensures WriteAll(index, changes + [Mark(target)]) == WriteAll(index, changes).(mark := target)
  {
    assert (changes + [Mark(target)])[..|changes|] == changes;
  }

  /** An index with the parent's offsets holds the parent's key map. */
  lemma SameOffsets(world: World, p: Parent, x: Index)
    requires WorldOk(world) && ParentOk(world.history, p) && IndexTrue(world.history, x)
    requires x.mark.applied == p.manifest.applied
    ensures x.keys == KeyRows(p.manifest.lance.rows)
  {
    ParentFacts(world, p);
    var i, j := x.mark.version, p.manifest.version;
    assert Right(world.history, x) && ChainOk(world.rules, world.history);
    hide WorldOk, ChainOk, KeyRows;
    if i <= j {
      AppliedDecides(world.rules, world.history, i, j);
    } else {
      AppliedDecides(world.rules, world.history, j, i);
    }
  }

  lemma RepairDecides(world: World, p: Parent, x: Index)
    requires WorldOk(world) && ParentOk(world.history, p) && Right(world.history, x)
    requires x.mark.version <= p.manifest.version
    ensures Descends(p.manifest) && StoreDescends(world.store)
    ensures var r := ReplayFrom(world.store, world.available, x.mark, p.manifest);
            && (r.Deltas? || r.ReplayGone?)
            && (r.Deltas? <==> CanReplay(world.history, world.available, x.mark.version, p.manifest.version))
            && (r.Deltas? ==> ApplyDelta(x.keys, r.changes) == KeyRows(p.manifest.lance.rows))
  {
    ParentFacts(world, p);
    hide ChainOk, StoreHolds, StoreDescends, KeyRows, ApplyDelta, ReplayFrom, CanReplay;
    ReplayIsRebuild(
      world.rules, world.history, world.store, world.available, x.mark.version, p.manifest.version, x.keys);
  }

  /** An open handle and the watermark its worker remembers. */
  datatype PkState = PkState(index: PkIndex, mark: Watermark)

  datatype PkOutcome = Ready | ReloadParent | PkFailed

  /** The rows of `inserts`, their keys in `order`, with the ids from `first` on. */
  function RowsFrom(first: RowId, inserts: Docs, order: seq<PrimaryKey>): (rows: RowSet)
    requires forall i :: 0 <= i < |order| ==> order[i] in inserts
    ensures forall r :: r in rows <==> first <= r < first + |order|
    ensures forall r :: r in rows ==> rows[r] == inserts[order[r - first]]
  {
    if order == [] then map[]
    else
      var n := |order| - 1;
      RowsFrom(first, inserts, order[..n])[first + n := inserts[order[n]]]
  }

  function RowsAt(base: Lance, inserts: Docs, order: seq<PrimaryKey>, files: set<Path>): NewRows
    requires forall i :: 0 <= i < |order| ==> order[i] in inserts
  {
    NewRows(RowsFrom(base.nextRow, inserts, order), base.nextRow + |order|, files)
  }

  lemma RowsAtWrite(base: Lance, inserts: Docs, order: seq<PrimaryKey>, files: set<Path>)
    requires KeyOrders.Lists(order, inserts.Keys) && forall k :: k in inserts ==> inserts[k].doc.pk == k
    requires base.nextRow + |inserts| <= U64_MAX
    ensures forall i :: 0 <= i < |order| ==> order[i] in inserts
    ensures LanceWrote(base, inserts, RowsAt(base, inserts, order, files))
  {
    hide *;
    ListedIn(order, inserts);
    KeyOrders.ListCount(order, inserts.Keys);
    var rows := RowsFrom(base.nextRow, inserts, order);
    RowsCarry(base, inserts, order, rows);
    RowsKeyed(base, inserts, order, rows);
    KeyRowsExact(rows);
    SameDocs(inserts, rows);
    IsWritten(base, inserts, order, files);
  }

  lemma ListedIn(order: seq<PrimaryKey>, inserts: Docs)
    requires KeyOrders.Lists(order, inserts.Keys)
    ensures forall i :: 0 <= i < |order| ==> order[i] in inserts
  {
    forall i | 0 <= i < |order| ensures order[i] in inserts { assert order[i] in order; }
  }

  lemma RowsCarry(base: Lance, inserts: Docs, order: seq<PrimaryKey>, rows: RowSet)
    requires forall i :: 0 <= i < |order| ==> order[i] in inserts
    requires rows == RowsFrom(base.nextRow, inserts, order) && forall k :: k in inserts ==> inserts[k].doc.pk == k
    ensures forall r :: r in rows ==> KeyAt(rows, r) == order[r - base.nextRow]
    ensures forall r :: r in rows ==> KeyAt(rows, r) in inserts && rows[r] == inserts[KeyAt(rows, r)]
  {
    hide RowsFrom;
  }

  lemma IsWritten(base: Lance, inserts: Docs, order: seq<PrimaryKey>, files: set<Path>)
    requires (forall i :: 0 <= i < |order| ==> order[i] in inserts) && base.nextRow + |order| <= U64_MAX
    requires var rows := RowsFrom(base.nextRow, inserts, order);
             UniqueKeys(rows) && DocsAt(KeyRows(rows), rows) == inserts
    ensures LanceWrote(base, inserts, RowsAt(base, inserts, order, files))
  {
    hide RowsFrom, KeyRows, UniqueKeys, DocsAt;
  }

  lemma RowsKeyed(base: Lance, inserts: Docs, order: seq<PrimaryKey>, rows: RowSet)
    requires KeyOrders.Lists(order, inserts.Keys)
    requires forall r :: r in rows <==> base.nextRow <= r < base.nextRow + |order|
    requires forall r :: r in rows ==> KeyAt(rows, r) == order[r - base.nextRow]
    ensures UniqueKeys(rows) && RowKeys(rows) == inserts.Keys
  {
    forall k ensures k in RowKeys(rows) <==> k in inserts {
      if k in inserts {
        var i :| 0 <= i < |order| && order[i] == k;
        assert KeyAt(rows, base.nextRow + i) == k;
      }
      if k in RowKeys(rows) {
        var r :| r in rows && KeyAt(rows, r) == k;
        assert order[r - base.nextRow] in order;
      }
    }
  }

  lemma SameDocs(inserts: Docs, rows: RowSet)
    requires Exact(KeyRows(rows), rows) && RowKeys(rows) == inserts.Keys
    requires forall r :: r in rows ==> KeyAt(rows, r) in inserts && rows[r] == inserts[KeyAt(rows, r)]
    ensures DocsAt(KeyRows(rows), rows) == inserts
  {
    forall k ensures k in DocsAt(KeyRows(rows), rows) <==> k in inserts {
      if k in inserts {
        var r :| r in rows && KeyAt(rows, r) == k;
      }
    }
  }

  /** What Lance does with new documents: one row each, with the ids after those it has given. */
  method WriteRows(base: Lance, inserts: Docs, files: set<Path>) returns (w: NewRows)
    requires forall k :: k in inserts ==> inserts[k].doc.pk == k
    requires base.nextRow + |inserts| <= U64_MAX
    ensures LanceWrote(base, inserts, w)
  {
    hide *;
    var order := KeyOrders.SortKeys(inserts.Keys);
    SortedLists(order, inserts.Keys);
    RowsAtWrite(base, inserts, order, files);
    w := RowsAt(base, inserts, order, files);
  }

  lemma SortedLists(order: seq<PrimaryKey>, keys: set<PrimaryKey>)
    requires KeyOrders.InKeyOrder(order, keys)
    ensures KeyOrders.Lists(order, keys)
  {
  }

  /** The metastore's pointer and the stored manifests, with the commits so far. `faults` counts what
      went wrong on the way to it: an answer lost, a worker that gave up, or a command it rejected for
      its lease or its age. */
  class Metastore {
    var pointer: Option<Pointer>
    var store: Store
    var faults: nat
    ghost var history: seq<Commit>

    constructor ()
      ensures pointer == None && store == map[] && history == [] && faults == 0
    {
      pointer, store, history, faults := None, map[], [], 0;
    }

    ghost predicate Valid(rules: Rules)
      reads this
    {
      && WorldOk(World(rules, history, store, {}))
      && pointer == if history == [] then None else Some(Pointer(|history|, history[|history| - 1].path))
    }

    /** Stores a manifest at a new path. */
    method PutManifest(path: Path, m: Manifest, ghost rules: Rules)
      requires Valid(rules) && path !in store && Descends(m)
      modifies this`store
      ensures Valid(rules) && store == old(store)[path := m]
    {
      store := store[path := m];
    }

    /** What the metastore does with the command: the pointer moves from `expected` to the manifest at
        `path`, or the command is rejected with the current pointer. */
    method Apply(expected: nat, path: Path, ghost batch: Batch, ghost rules: Rules) returns (reply: Reply)
      requires Valid(rules) && path in store
      requires expected == |history| ==> NextOn(rules, history, Commit(path, store[path], batch))
      modifies this`pointer, this`history
      ensures Valid(rules)
      ensures if expected == |old(history)|
              then reply == Applied && history == old(history) + [Commit(path, store[path], batch)]
              else reply == Mismatch(pointer) && pointer == old(pointer) && history == old(history)
    {
      hide Follows, StoreDescends, ChainOk, At, PathAt;
      var live := if pointer.Some? then pointer.value.version else 0;
      if live != expected {
        return Mismatch(pointer);
      }
      ChainGrows(rules, history, Commit(path, store[path], batch));
      pointer, history := Some(Pointer(expected + 1, path)), history + [Commit(path, store[path], batch)];
      reply := Applied;
    }

    /** Another worker's commit on the live manifest. */
    method Overtake(commit: Commit, ghost rules: Rules)
      requires Valid(rules) && commit.path !in store && NextOn(rules, history, commit)
      modifies this`pointer, this`store, this`history
      ensures Valid(rules) && history == old(history) + [commit] && store == old(store)[commit.path := commit.manifest]
    {
      hide Follows, ChainOk, At, PathAt;
      NextDescends(rules, history, commit);
      ChainGrows(rules, history, commit);
      store := store[commit.path := commit.manifest];
      pointer, history := Some(Pointer(commit.manifest.version, commit.path)), history + [commit];
    }

    /** Sends the command. Any answer may be lost; then the metastore's client sends it again or gives up,
        and meanwhile another worker may commit on what landed (`rival`). A retry that finds the live path
        to be its own, which only this commit could have written, has landed. */
    method Send(expected: nat, path: Path, batch: Batch, rival: Option<Commit>, ghost rules: Rules)
      returns (end: CasEnd)
      requires Valid(rules) && path in store
      requires expected == |history| ==> NextOn(rules, history, Commit(path, store[path], batch))
      requires forall i :: 0 <= i < |history| ==> history[i].path != path
      requires expected == |history| && rival.Some? ==>
                 && rival.value.path !in store
                 && NextOn(rules, history + [Commit(path, store[path], batch)], rival.value)
      modifies this
      ensures Valid(rules)
      ensures Landing(old(history), history, expected, Commit(path, old(store)[path], batch), None, rival)
      ensures end.CasLanded? ==>
                |old(history)| == expected && history == old(history) + [Commit(path, old(store)[path], batch)]
      ensures end.CasOvertaken? ==> NotLive(history, path)
      ensures forall p :: p in old(store) ==> p in store && store[p] == old(store)[p]
      ensures faults >= old(faults)
      ensures faults == old(faults) ==> end == if |old(history)| == expected then CasLanded else CasOvertaken
    {
      hide Follows, StoreDescends, ChainOk, At, PathAt, NextOn;
      var lost: bool := *;
      if * {
        faults := faults + 1;
        return CasRefused(lost);
      }
      if * {
        faults := faults + 1;
        return CasUnknown;
      }
      var reply := Apply(expected, path, batch, rules);
      if * {
        faults := faults + 1;
        if reply.Applied? && rival.Some? {
          if * { Overtake(rival.value, rules); }
        }
        if * {
          return CasRefused(lost);
        }
        if * {
          return CasUnknown;
        }
        reply := Apply(expected, path, batch, rules);
      }
      PointerIs(history, pointer, expected, path);
      match reply
      case Applied => end := CasLanded;
      case Mismatch(current) =>
        end := if current == Some(Pointer(expected + 1, path)) then CasLanded else CasOvertaken;
    }

    /** `PointerCas::run`. Another worker may commit first (`ahead`). */
    method Cas(
      expected: nat, path: Path, batch: Batch, ahead: Option<Commit>, rival: Option<Commit>, ghost rules: Rules)
      returns (end: CasEnd)
      requires Valid(rules) && path in store
      requires expected == |history| ==> NextOn(rules, history, Commit(path, store[path], batch))
      requires expected <= |history| && forall i :: 0 <= i < |history| ==> history[i].path != path
      requires ahead.Some? ==> ahead.value.path !in store && NextOn(rules, history, ahead.value)
      requires expected == |history| && rival.Some? ==>
                 && rival.value.path !in store
                 && NextOn(rules, history + [Commit(path, store[path], batch)], rival.value)
      modifies this
      ensures Valid(rules)
      ensures Landing(old(history), history, expected, Commit(path, old(store)[path], batch), ahead, rival)
      ensures end.CasLanded? ==>
                |old(history)| == expected && history == old(history) + [Commit(path, old(store)[path], batch)]
      ensures end.CasOvertaken? ==> NotLive(history, path)
      ensures forall p :: p in old(store) ==> p in store && store[p] == old(store)[p]
      ensures faults >= old(faults)
      ensures faults == old(faults) && ahead.None? ==>
                end == if |old(history)| == expected then CasLanded else CasOvertaken
    {
      hide Valid, NextOn, NotLive;
      if ahead.Some? {
        if * { Overtake(ahead.value, rules); }
      }
      end := Send(expected, path, batch, rival, rules);
    }
  }

  /** The metastore's answer to a CAS. */
  datatype Reply = Applied | Mismatch(current: Option<Pointer>)

  /** How a CAS ends for its worker: it landed; another commit is live; it was rejected for its lease or
      its age; or the metastore did not answer. */
  datatype CasEnd = CasLanded | CasOvertaken | CasRefused(fenced: bool) | CasUnknown

  /** `commit` is made from the newest manifest of `history`. */
  ghost predicate NextOn(rules: Rules, history: seq<Commit>, commit: Commit) {
    && commit.manifest.parent == PathAt(history, |history|)
    && Follows(rules, At(history, |history|), commit.manifest, commit.batch)
  }

  lemma NextDescends(rules: Rules, history: seq<Commit>, commit: Commit)
    requires ChainOk(rules, history) && NextOn(rules, history, commit)
    ensures Descends(commit.manifest) && commit.manifest.version == |history| + 1
  {
    VersionAt(rules, history, |history|);
  }

  lemma PointerIs(history: seq<Commit>, pointer: Option<Pointer>, v: nat, path: Path)
    requires pointer == if history == [] then None else Some(Pointer(|history|, history[|history| - 1].path))
    ensures pointer == Some(Pointer(v + 1, path)) <==> |history| == v + 1 && history[v].path == path
  {
  }

  /** `after` is `before`; or that and `ahead`; or that and `commit`, made on version `expected`, and
      perhaps `rival` on top. */
  ghost predicate Landing(
    before: seq<Commit>, after: seq<Commit>, expected: nat, commit: Commit, ahead: Option<Commit>,
    rival: Option<Commit>)
  {
    || after == before
    || (ahead.Some? && after == before + [ahead.value])
    || (|before| == expected && after == before + [commit])
    || (|before| == expected && rival.Some? && after == before + [commit] + [rival.value])
  }

  /** The manifest stored at `path` is not the live one. */
  ghost predicate NotLive(after: seq<Commit>, path: Path) {
    after == [] || after[|after| - 1].path != path
  }

  /** How a commit ends: it is known to have landed; another commit is live; the worker is fenced; the
      CAS was rejected as too late; the metastore did not answer; or it was given up before the CAS. */
  datatype CommitEnd = Committed(version: nat) | Conflicted | Fenced | Refused | Unknown | GivenUp

  /** The cached state of one link's target, and the stores it works on. */
  class CollectionTarget {
    var parent: Option<Parent>
    var pk: Option<PkState>
    const index: PkIndex
    const meta: Metastore
    const rules: Rules
    const chunk: nat
    const lookups: nat

    ghost function Here(available: set<Path>): World
      reads meta
    {
      World(rules, meta.history, meta.store, available)
    }

    /** The parent is on the chain; the handle reads an index that is right for a version no older
        than the watermark remembered for it. */
    ghost predicate Valid()
      reads this, index, meta
    {
      && chunk > 0 && meta.Valid(rules) && IndexTrue(meta.history, index.Contents())
      && (parent.Some? ==> ParentOk(meta.history, parent.value))
      && (pk.Some? ==>
            pk.value.index == index && HandleOk(meta.history, Handle(0, index.Contents(), pk.value.mark)))
    }

    constructor (index: PkIndex, meta: Metastore, rules: Rules, chunk: nat, lookups: nat)
      requires chunk > 0 && meta.Valid(rules) && IndexTrue(meta.history, index.Contents())
      ensures Valid() && this.index == index && this.meta == meta && this.rules == rules
      ensures parent == None && pk == None
    {
      this.parent, this.pk := None, None;
      this.index, this.meta, this.rules, this.chunk, this.lookups := index, meta, rules, chunk, lookups;
    }

    /** Loads the live manifest and remembers it. */
    method LoadLive() returns (p: Parent)
      requires Valid()
      modifies this`parent
      ensures Valid() && parent == Some(p)
      ensures ParentOk(meta.history, p) && p.manifest.version == |meta.history|
    {
      VersionAt(rules, meta.history, |meta.history|);
      if meta.pointer.None? {
        p := Parent(None, EMPTY);
      } else {
        var path := meta.pointer.value.path;
        InStore(meta.store, meta.history, |meta.history| - 1);
        p := Parent(Some(path), meta.store[path]);
      }
      parent := Some(p);
    }

    /** The PK index handle for a commit on `p`: the cached one if it fits, else a new one, repaired.
        When `p` is live this is `Ready` unless a write fails, and then the index maps exactly the keys
        of `p`. */
    method PkHandle(p: Parent, available: set<Path>) returns (r: PkOutcome)
      requires Valid() && ParentOk(meta.history, p)
      modifies this`pk, index
      ensures Valid()
      ensures r.Ready? ==> pk.Some? && pk.value.mark.applied == p.manifest.applied
      ensures r.Ready? && p.manifest.version == |meta.history| ==> index.keys == KeyRows(p.manifest.lance.rows)
      ensures r.ReloadParent? ==>
                && pk.Some? && pk.value.mark == index.mark == old(index.mark) && IsAhead(index.mark, p)
                && p.manifest.version < |meta.history|
      ensures index.failures == old(index.failures) + if r.PkFailed? then 1 else 0
    {
      ghost var world := Here(available);
      WorldFits(Here({}), available);
      hide WorldOk, KeyRows, Right;
      if pk.Some? && pk.value.mark.applied == p.manifest.applied {
        if p.manifest.version == |meta.history| {
          WorldChain(world);
          HandleReads(rules, meta.history, Handle(0, index.Contents(), pk.value.mark), p);
        }
        return Ready;
      }
      pk := None;
      var repaired := RepairIndex(index, p, meta.store, available, chunk, world);
      match repaired {
        case To(mark) =>
          MarkRight(world, p, index.Contents());
          pk := Some(PkState(index, mark));
          r := Ready;
        case AheadOfParent(mark) =>
          MarkRight(world, p, index.Contents());
          MarkOnChain(meta.history, index.Contents());
          pk := Some(PkState(index, mark));
          r := ReloadParent;
        case Failed =>
          r := PkFailed;
      }
    }

    /** Steps 5 to 10: resolves `batch` against the index and builds the next manifest. On the live
        manifest this gives a manifest that follows it, and fails only when Lance has no row ids left. */
    method Prepare(
      p: Parent, batch: Batch, skipped: int, started: nat, objects: NewObjects, files: set<Path>, indexes: set<string>)
      returns (m: Option<Manifest>)
      requires Valid() && ParentOk(meta.history, p) && BatchOk(batch)
      requires BatchFits(p.manifest.applied, batch) && skipped == Skipped(p.manifest.applied, batch)
      requires p.manifest.version == |meta.history| ==> index.keys == KeyRows(p.manifest.lance.rows)
      ensures m.Some? ==> m.value.parent == p.path && Descends(m.value) && m.value.version == p.manifest.version + 1
      ensures m.Some? && p.manifest.version == |meta.history| ==> Follows(rules, p.manifest, m.value, batch)
      ensures m.Some? ==> m.value.kind.LinkApply?
      ensures m.None? && p.manifest.version == |meta.history| ==>
                p.manifest.lance.nextRow + |batch.records| > U64_MAX
    {
      ghost var live := p.manifest.version == |meta.history|;
      ghost var view := index.keys;
      VersionAt(rules, meta.history, p.manifest.version);
      SplitsLocated(p.manifest);
      hide Valid, KeyRows, Whole, Resolves, KeyEnd, LanceWrote, BatchFits, ParentOk, BatchOk, Acceptable, Follows,
           LinkManifest, CanDelete, KeysOf, LocatorOf, RangesOf, Skipped, Done, Unshared, BadRead;
      var locator := NewLocator(RangesOf(p.manifest.splits));
      var resolved, starts, _ := ResolveBatch(rules, p.manifest.lance.rows, index.keys, batch.records, lookups);
      if live { ResolveWorks(rules, p.manifest, view, batch); }
      if locator.Err? || resolved.Err? {
        return None;
      }
      var r := resolved.value;
      DoneKeys(rules, p.manifest.lance.rows, view, batch.records, KeysOf(rules, batch.records), starts, r);
      InsertCount(rules, batch.records, r);
      if p.manifest.lance.nextRow + |r.inserts| > U64_MAX {
        return None;
      }
      forall k | k in r.inserts ensures r.inserts[k].doc.pk == k {
        DoneKeyed(rules, p.manifest.lance.rows, view, batch.records, starts, r, k);
      }
      var w := WriteRows(p.manifest.lance, r.inserts, files);
      WroteUnique(p.manifest.lance, r.inserts, w);
      var newRows := LiveKeys(w.rows);
      var next := NextManifest(
        p.manifest, p.path, started, batch, skipped, locator.value, r, w, newRows, objects, indexes);
      LinkShape(p.manifest, p.path, started, batch, r, w, objects, indexes);
      LinkCounts(p.manifest, batch, r, w, p.path, started, objects, indexes);
      if live {
        MakeApplies(rules, p.manifest, view, batch, r, w);
        CommitNeverFails(rules, p.manifest, view, batch, r, w);
        LinkFollows(rules, p.manifest, view, batch, r, w, p.path, started, objects, indexes);
      }
      m := if next.Ok? then Some(next.value) else None;
    }

    /** Step 13: the PK changes of the commit that just landed. A write that fails, because the handle
        was fenced or otherwise, drops the handle; the next commit repairs the index. */
    method WritePk(delta: Delta, target: Watermark) returns (fenced: bool)
      requires Valid() && pk.Some? && parent.Some? && target == Protocol.Target(parent.value)
      requires pk.value.mark.version <= target.version
      requires ApplyDelta(index.keys, delta) == KeyRows(parent.value.manifest.lance.rows)
      modifies this`pk, index
      ensures Valid()
      ensures fenced ==> pk.None?
      ensures index.failures == old(index.failures) + if pk.None? then 1 else 0
      ensures pk.Some? ==>
                pk.value.mark == target && index.Contents() == Index(ApplyDelta(old(index.keys), delta), target)
    {
      hide WorldOk, KeyRows, ApplyDelta, Right;
      var changes := ListDelta(delta);
      ListsApply(index.Contents(), changes, delta);
      WriteWithMark(index.Contents(), changes, target);
      TargetIsRight(meta.history, parent.value, Index(KeyRows(parent.value.manifest.lance.rows), target));
      ghost var h := Handle(0, Index(KeyRows(parent.value.manifest.lance.rows), target), target);
      FreshHandle(meta.history, parent.value, h);
      var ok := index.Write(changes + [Mark(target)]);
      pk := if ok then Some(PkState(index, target)) else None;
      fenced := false;
      if * { fenced := !ok; }
    }

    /** Steps 10 to 13: stores the manifest `m`, made on `p`, sends the CAS and, if it is known to have
        landed, writes the PK index. */
    method Land(
      p: Parent, m: Manifest, expected: nat, batch: Batch, path: Path, ahead: Option<Commit>, rival: Option<Commit>)
      returns (r: CommitEnd)
      requires Valid() && ParentOk(meta.history, p) && p.manifest.version == expected && pk.Some?
      requires path !in meta.store && Descends(m) && m.parent == p.path && m.version == expected + 1
      requires expected == |meta.history| ==>
                 Follows(rules, p.manifest, m, batch) && index.keys == KeyRows(p.manifest.lance.rows)
      requires ahead.Some? ==> AheadOk(rules, meta.history, meta.store, path, ahead.value)
      requires rival.Some? ==> RivalOk(rules, meta.store, path, m, rival.value)
      modifies this`parent, this`pk, index, meta
      ensures Valid()
      ensures Landing(old(meta.history), meta.history, expected, Commit(path, m, batch), ahead, rival)
      ensures r.GivenUp? ==> meta.history == old(meta.history)
      ensures r.Committed? ==>
                && r.version == expected + 1 && |old(meta.history)| == expected
                && meta.history == old(meta.history) + [Commit(path, m, batch)]
      ensures r.Conflicted? ==> NotLive(meta.history, path)
      ensures r.Committed? && pk.Some? ==> index.keys == KeyRows(m.lance.rows)
      ensures meta.faults >= old(meta.faults) && index.failures >= old(index.failures)
      ensures meta.faults == old(meta.faults) && index.failures == old(index.failures) && ahead.None? ==>
                if |old(meta.history)| == expected then r.Committed? && pk.Some? else r.Conflicted?
      ensures r.GivenUp? ==> meta.faults > old(meta.faults)
    {
      hide WorldOk, Follows, KeyRows, ApplyDelta, Right, IndexTrue, HandleOk, Descends, ParentOk, At, PathAt, NextOn,
           RivalOk, AheadOk;
      ghost var before := meta.history;
      ghost var commit := History.Commit(path, m, batch);
      OnChain(before, p);
      StoreApart(Here({}), path);
      MayLand(rules, before, meta.store, p, commit, ahead, rival);
      meta.PutManifest(path, m, rules);
      if * {
        meta.faults := meta.faults + 1;
        return GivenUp;
      }
      var end := meta.Cas(expected, path, batch, ahead, rival, rules);
      LandingKeeps(before, meta.history, expected, commit, ahead, rival, index.Contents(), pk.value.mark, parent);
      match end {
        case CasLanded =>
        case CasOvertaken => return Conflicted;
        case CasUnknown => return Unknown;
        case CasRefused(fenced) =>
          if fenced {
            pk := None;
            return Fenced;
          }
          return Refused;
      }
      NewParent(before, commit);
      parent := Some(Parent(Some(path), m));
      FollowsKeys(rules, p.manifest, m, batch);
      var fenced := WritePk(Replay(m), Watermark(m.version, m.applied));
      r := if fenced then Fenced else Committed(expected + 1);
    }

    /** A whole link-apply commit on version `expected`. However it ends, the target is valid, and the
        history is as it was; or has only `ahead`'s commit, which landed first; or has this commit, which
        follows the manifest that was live, and perhaps `rival`'s on top of it. It is as it was if the
        commit was given up before the CAS; it has the commit, and nothing on top, if the commit is known
        to have landed; and after a conflict the commit is not live. When nothing fails on the way and no
        one is faster, a batch that fits the live manifest is committed, and the index follows it. */
    method CommitBatch(
      expected: nat, batch: Batch, started: nat, path: Path, objects: NewObjects, files: set<Path>,
      indexes: set<string>, available: set<Path>, ahead: Option<Commit>, rival: Manifest -> Option<Commit>)
      returns (r: CommitEnd)
      requires Valid() && BatchOk(batch) && path !in meta.store
      requires ahead.Some? ==> AheadOk(rules, meta.history, meta.store, path, ahead.value)
      requires forall m :: rival(m).Some? ==> RivalOk(rules, meta.store, path, m, rival(m).value)
      modifies this`parent, this`pk, index, meta
      ensures Valid()
      ensures || meta.history == old(meta.history)
              || (ahead.Some? && meta.history == old(meta.history) + [ahead.value])
              || (&& |old(meta.history)| == expected < |meta.history|
                  && var m := meta.history[expected].manifest;
                     && Follows(rules, At(old(meta.history), expected), m, batch)
                     && Landing(old(meta.history), meta.history, expected, Commit(path, m, batch), None, rival(m)))
      ensures r.GivenUp? ==> meta.history == old(meta.history)
      ensures r.Committed? ==>
                && r.version == expected + 1 == |meta.history| && |old(meta.history)| == expected
                && meta.history[expected].path == path
      ensures r.Conflicted? ==> NotLive(meta.history, path)
      ensures r.Committed? && pk.Some? ==> index.keys == KeyRows(At(meta.history, |meta.history|).lance.rows)
      ensures meta.faults >= old(meta.faults) && index.failures >= old(index.failures)
      ensures meta.faults == old(meta.faults) && index.failures == old(index.failures) && ahead.None? ==>
                if |old(meta.history)| != expected then r.Conflicted? || r.GivenUp?
                else if Committable(At(old(meta.history), expected), batch) then r.Committed? && pk.Some?
                else !BatchFits(At(old(meta.history), expected).applied, batch) ==> r.GivenUp?
      ensures r.GivenUp? ==>
                || meta.faults > old(meta.faults) || index.failures > old(index.failures)
                || |old(meta.history)| != expected || !Committable(At(old(meta.history), expected), batch)
    {
      hide WorldOk, Follows, KeyRows, ApplyDelta, Right, IndexTrue, HandleOk, BatchOk, BatchFits, Descends, ParentOk,
           At, PathAt, Skipped, NextOn, RivalOk, AheadOk;
      var p;
      if parent.Some? && parent.value.manifest.version == expected {
        p := parent.value;
      } else {
        p := LoadLive();
        if p.manifest.version != expected {
          StoreApart(Here({}), path);
          return Conflicted;
        }
      }
      ghost var before := meta.history;
      OnChain(before, p);
      var skipped := SkippedOffsets(p.manifest.applied, batch);
      if skipped.Err? {
        return GivenUp;
      }
      var handle := PkHandle(p, available);
      if handle.ReloadParent? {
        StoreApart(Here({}), path);
        return Conflicted;
      }
      if handle.PkFailed? {
        return GivenUp;
      }
      var m := Prepare(p, batch, skipped.value, started, objects, files, indexes);
      if m.None? {
        return GivenUp;
      }
      r := Land(p, m.value, expected, batch, path, ahead, rival(m.value));
      LandingAt(before, meta.history, expected, Commit(path, m.value, batch), ahead, rival(m.value));
    }
  }

  /** The batch fits the offsets of `parent`, and Lance has row ids left for it. */
  ghost predicate Committable(parent: Manifest, batch: Batch) {
    BatchFits(parent.applied, batch) && parent.lance.nextRow + |batch.records| <= U64_MAX
  }

  /** `commit` is another worker's, made on `m`, stored at `path`. */
  ghost predicate RivalOk(rules: Rules, store: Store, path: Path, m: Manifest, commit: Commit) {
    && commit.path !in store && commit.path != path
    && commit.manifest.parent == Some(path) && Follows(rules, m, commit.manifest, commit.batch)
  }

  /** `commit` is another worker's, made on the live manifest, and not the one stored at `path`. */
  ghost predicate AheadOk(rules: Rules, history: seq<Commit>, store: Store, path: Path, commit: Commit) {
    commit.path !in store && commit.path != path && NextOn(rules, history, commit)
  }

  lemma MayLand(
    rules: Rules, history: seq<Commit>, store: Store, p: Parent, commit: Commit, ahead: Option<Commit>,
    rival: Option<Commit>)
    requires ParentOk(history, p) && commit.manifest.parent == p.path
    requires p.manifest.version == |history| ==> Follows(rules, p.manifest, commit.manifest, commit.batch)
    requires ahead.Some? ==> AheadOk(rules, history, store, commit.path, ahead.value)
    requires rival.Some? ==> RivalOk(rules, store, commit.path, commit.manifest, rival.value)
    ensures ahead.Some? ==>
              ahead.value.path !in store[commit.path := commit.manifest] && NextOn(rules, history, ahead.value)
    ensures p.manifest.version == |history| ==>
              && NextOn(rules, history, commit)
              && (rival.Some? ==>
                    && rival.value.path !in store[commit.path := commit.manifest]
                    && NextOn(rules, history + [commit], rival.value))
  {
    hide Follows;
  }

  lemma LandingAt(
    before: seq<Commit>, after: seq<Commit>, expected: nat, commit: Commit, ahead: Option<Commit>,
    rival: Option<Commit>)
    requires Landing(before, after, expected, commit, ahead, rival)
    ensures || after == before || (ahead.Some? && after == before + [ahead.value])
            || (&& |before| == expected < |after| && after[expected] == commit
                && Landing(before, after, expected, commit, None, rival))
    ensures after == before + [commit] ==> At(after, |after|) == commit.manifest && after[|before|].path == commit.path
  {
  }

  /** Whatever a CAS did to the history, the target's parent, index and handle are as they should be. */
  lemma LandingKeeps(
    before: seq<Commit>, after: seq<Commit>, expected: nat, commit: Commit, ahead: Option<Commit>,
    rival: Option<Commit>, x: Index, mark: Watermark, parent: Option<Parent>)
    requires Landing(before, after, expected, commit, ahead, rival)
    requires IndexTrue(before, x) && HandleOk(before, Handle(0, x, mark))
    requires parent.Some? ==> ParentOk(before, parent.value)
    ensures IndexTrue(after, x) && HandleOk(after, Handle(0, x, mark)) && mark.version <= |before|
    ensures parent.Some? ==> ParentOk(after, parent.value)
  {
    hide IndexTrue, HandleOk, ParentOk;
    StillValid(before, commit, x, mark);
    if parent.Some? { ParentGrows(before, commit, parent.value); }
    if ahead.Some? {
      StillValid(before, ahead.value, x, mark);
      if parent.Some? { ParentGrows(before, ahead.value, parent.value); }
    }
    if rival.Some? {
      StillValid(before + [commit], rival.value, x, mark);
      if parent.Some? { ParentGrows(before + [commit], rival.value, parent.value); }
    }
  }

  lemma OnChain(history: seq<Commit>, p: Parent)
    requires ParentOk(history, p)
    ensures p.manifest.version <= |history|
    ensures p.manifest == At(history, p.manifest.version) && p.path == PathAt(history, p.manifest.version)
  {
  }

  lemma NewParent(history: seq<Commit>, commit: Commit)
    requires commit.manifest.version == |history| + 1
    ensures ParentOk(history + [commit], Parent(Some(commit.path), commit.manifest))
  {
  }

  lemma StoreApart(world: World, path: Path)
    requires WorldOk(world) && path !in world.store
    ensures forall i :: 0 <= i < |world.history| ==> world.history[i].path != path
  {
  }

  lemma StillValid(history: seq<Commit>, commit: Commit, x: Index, mark: Watermark)
    requires IndexTrue(history, x) && HandleOk(history, Handle(0, x, mark))
    ensures IndexTrue(history + [commit], x) && HandleOk(history + [commit], Handle(0, x, mark))
    ensures mark.version <= |history|
  {
    RightGrows(history, commit, x);
    HandleGrows(history, commit, Handle(0, x, mark));
  }

  lemma SplitsLocated(m: Manifest)
    requires Whole(m)
    ensures forall i :: 0 <= i < |m.splits| ==> U64Ranges(m.splits[i].ranges)
    ensures Acceptable(RangesOf(m.splits))
  {
    SplitsAcceptable(m.splits);
  }

  lemma WroteUnique(base: Lance, inserts: Docs, w: NewRows)
    requires LanceWrote(base, inserts, w)
    ensures UniqueKeys(w.rows)
  {
  }

  lemma ResolveWorks(rules: Rules, parent: Manifest, view: KeyMap, batch: Batch)
    requires Whole(parent) && view == KeyRows(parent.lance.rows)
    ensures forall k :: KeyEnd(rules, parent.lance.rows, view, batch.records, k).Ok?
    ensures Unshared(view, KeysOf(rules, batch.records))
  {
    ExactUnshared(parent, view, KeysOf(rules, batch.records));
    hide *;
    forall k ensures KeyEnd(rules, parent.lance.rows, view, batch.records, k).Ok? {
      ResolveNeverFails(rules, parent, view, batch.records, k);
    }
  }

  lemma ExactUnshared(parent: Manifest, view: KeyMap, keys: set<PrimaryKey>)
    requires Whole(parent) && view == KeyRows(parent.lance.rows)
    ensures Unshared(view, keys)
  {
    assert UniqueKeys(parent.lance.rows);
    hide Whole, KeyRows, UniqueKeys;
    KeyRowsExact(parent.lance.rows);
  }

  lemma DoneKeyed(
    rules: Rules, rows: RowSet, view: KeyMap, records: seq<StreamRecord>, starts: Starts, r: Resolution,
    k: PrimaryKey)
    requires Done(rules, rows, view, records, KeysOf(rules, records), starts, r) && k in r.inserts
    ensures r.inserts[k].doc.pk == k
  {
    hide Ended, KeysOf, KeyOps, Shares, StartLetters, RefusedLetters;
    assert MayStart(rules, rows, view, records, KeysOf(rules, records), k, starts[k]);
    InsertKeyed(rules, view, records, r, k, starts[k]);
  }

  lemma MakeApplies(rules: Rules, parent: Manifest, view: KeyMap, batch: Batch, r: Resolution, w: NewRows)
    requires BatchFits(parent.applied, batch) && LanceWrote(parent.lance, r.inserts, w)
    requires Resolves(rules, parent.lance.rows, view, batch.records, KeysOf(rules, batch.records), r)
    ensures Applies(rules, parent, view, batch, r, w)
  {
    hide BatchFits, LanceWrote, Resolves;
  }

  lemma WorldFits(world: World, available: set<Path>)
    requires WorldOk(world)
    ensures WorldOk(world.(available := available))
  {
    hide ChainOk, StoreHolds, StoreDescends;
  }

  lemma WorldChain(world: World)
    requires WorldOk(world)
    ensures ChainOk(world.rules, world.history)
  {
    hide ChainOk;
  }

  lemma MarkOnChain(history: seq<Commit>, x: Index)
    requires IndexTrue(history, x) && x.mark != REBUILDING
    ensures x.mark.version <= |history|
  {
    hide KeyRows;
  }

  lemma MarkRight(world: World, p: Parent, x: Index)
    requires WorldOk(world) && ParentOk(world.history, p) && IndexTrue(world.history, x)
    requires x.mark.applied == p.manifest.applied || x.mark.version > p.manifest.version
    ensures HandleOk(world.history, Handle(0, x, x.mark))
  {
    ParentFacts(world, p);
    hide WorldOk, KeyRows;
  }
}
