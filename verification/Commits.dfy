/** Collection manifests and the two ways to make the next one: applying a batch of the stream, and
    building an index (steps 3 to 10 of `commit_locked` in crates/loams-collection/src/target.rs;
    `manifest` in index_build.rs). */
module Commits {
  import opened Prelude
  import opened PrimaryKeys
  import opened Documents
  import opened RowLocator
  import opened Splits
  import opened Resolve
  import opened Batching
  import opened Offsets
  import opened RowSets

  /** A Lance version: its live rows, the id its next row gets, and its files. */
  datatype Lance = Lance(rows: RowSet, nextRow: RowId, files: set<Path>)

  datatype Kind = LinkApply | IndexBuild | Maintenance

  /** The keys one commit changed: their new rows, or `None` for a key deleted without replacement. */
  type Delta = map<PrimaryKey, Option<RowId>>

  datatype DeltaFile = DeltaFile(path: Path, entries: Delta)

  datatype Manifest = Manifest(
    version: nat, parentVersion: nat, parent: Option<Path>, createdAt: nat,
    lance: Lance, splits: seq<SplitRef>, indexes: set<string>, applied: Applied, liveDocs: int,
    kind: Kind, delta: Option<DeltaFile>, letters: Option<Path>, lettersTotal: nat, skippedTotal: int)

  /** What a collection is before its first commit. */
  const EMPTY: Manifest := Manifest(
    0, 0, None, 0, Lance(map[], 0, {}), [], {}, map[], 0, Maintenance, None, None, 0, 0)

  /** Every live doc of `s` that is one of `rows` stores the key of its row. */
  ghost predicate SplitKeyed(s: SplitRef, rows: RowSet) {
    forall d :: 0 <= d < |RowIds(s.ranges)| && d !in s.deleted && RowIds(s.ranges)[d] in rows ==>
      d < |s.keys| && s.keys[d] == KeyAt(rows, RowIds(s.ranges)[d])
  }

  ghost predicate Keyed(splits: seq<SplitRef>, rows: RowSet) {
    forall i :: 0 <= i < |splits| ==> SplitKeyed(splits[i], rows)
  }

  /** The three structures of a manifest agree: its live split docs are its live rows and store their
      keys, each key has one row, the counts are right, and no row id is at or above the next one. */
  ghost predicate Whole(m: Manifest) {
    && Keyed(m.splits, m.lance.rows)
    && SplitsOk(m.splits) && Live(m.splits) == m.lance.rows.Keys
    && UniqueKeys(m.lance.rows) && m.liveDocs == |m.lance.rows|
    && (forall r :: r in AllRows(m.splits) ==> r < m.lance.nextRow) && m.lance.nextRow <= U64_MAX
  }

  /** The documents a manifest holds. */
  ghost function ManifestDocs(m: Manifest): Docs {
    DocsAt(KeyRows(m.lance.rows), m.lance.rows)
  }

  // ---- Applying a batch ----

  /** The rows a Lance commit adds, the id the next row gets, and the files of the new version. */
  datatype NewRows = NewRows(rows: RowSet, nextRow: RowId, files: set<Path>)

  /** What a Lance commit of `inserts` on `base` promises: one new row a document, with ids `base`
      never had. */
  ghost predicate LanceWrote(base: Lance, inserts: Docs, w: NewRows) {
    && UniqueKeys(w.rows) && DocsAt(KeyRows(w.rows), w.rows) == inserts
    && (forall r :: r in w.rows ==> base.nextRow <= r < w.nextRow)
    && base.nextRow <= w.nextRow <= U64_MAX
  }

  /** The paths of the objects a commit writes. */
  datatype NewObjects = NewObjects(split: Path, bitmaps: nat -> Path, delta: Path, letters: Path)

  ghost function DeltaOf(r: Resolution, w: NewRows): Delta {
    map k | k in r.inserts.Keys + r.retired.Keys ::
      if k in KeyRows(w.rows) then Some(KeyRows(w.rows)[k]) else None
  }

  function ApplyDelta(m: KeyMap, d: Delta): KeyMap {
    map k | k in m.Keys + d.Keys && (k in d ==> d[k].Some?) :: if k in d then d[k].value else m[k]
  }

  ghost function LinkSplits(parent: Manifest, r: Resolution, w: NewRows, objects: NewObjects): seq<SplitRef> {
    AfterDeletes(parent.splits, r.retired.Values, objects.bitmaps)
    + if r.inserts == map[] then [] else [SplitOf(objects.split, w.rows)]
  }

  /** The split of `rows`: its docs in row-id order, each with the key of its row. */
  ghost function SplitOf(path: Path, rows: RowSet): SplitRef {
    var ids := Sorted(rows.Keys);
    SortedAscends(rows.Keys);
    assert forall i :: 0 <= i < |ids| ==> ids[i] in Elements(ids);
    NewSplit(path, ids, seq(|ids|, i requires 0 <= i < |ids| => KeyAt(rows, ids[i])))
  }

  predicate ChangesRows(r: Resolution) {
    r.inserts != map[] || r.retired != map[]
  }

  /** The manifest of a link-apply commit on `parent`, started at `started`. */
  ghost function LinkManifest(
    parent: Manifest, parentPath: Option<Path>, started: nat, batch: Batch, r: Resolution, w: NewRows,
    objects: NewObjects, indexes: set<string>)
    : Manifest
  {
    LinkApplied(
      parent, parentPath, started, batch, r,
      if ChangesRows(r) then Lance(Replaced(parent.lance.rows, r.retired, w.rows), w.nextRow, w.files)
          else parent.lance,
      LinkSplits(parent, r, w, objects), indexes,
      if ChangesRows(r) then Some(DeltaFile(objects.delta, DeltaOf(r, w))) else None,
      if r.letters == multiset{} then None else Some(objects.letters),
      Skipped(parent.applied, batch))
  }

  /** Step 10: the manifest, from its parts. */
  function LinkApplied(
    parent: Manifest, parentPath: Option<Path>, started: nat, batch: Batch, r: Resolution, lance: Lance,
    splits: seq<SplitRef>, indexes: set<string>, delta: Option<DeltaFile>, letters: Option<Path>, skipped: int)
    : Manifest
  {
    Manifest(
      parent.version + 1, parent.version, parentPath, started, lance, splits, indexes * parent.indexes,
      parent.applied + batch.appliedAfter, parent.liveDocs + |r.inserts| - |r.retired|, LinkApply,
      delta, letters, parent.lettersTotal + |r.letters|, parent.skippedTotal + skipped)
  }

  // ---- A resolution against an exact view ----

  lemma {:induction false} KeyOpsOfNamed(rules: Rules, records: seq<StreamRecord>, k: PrimaryKey)
    requires k in KeysOf(rules, records)
    ensures KeyOps(rules, records, k) != []
  {
    var n := |records| - 1;
    var i :| 0 <= i <= n && !Refused(rules, records[i]) && records[i].op.value.Pk() == k;
    if i < n {
      assert records[..n][i] == records[i];
      assert k in KeysOf(rules, records[..n]);
      KeyOpsOfNamed(rules, records[..n], k);
    }
  }

  lemma CommitDocsGet(rules: Rules, docs: Docs, records: seq<StreamRecord>, k: PrimaryKey)
    ensures Get(CommitDocs(rules, docs, records), k) == CommitKey(rules, Get(docs, k), KeyOps(rules, records, k))
  {
    hide KeyOps;
    if k !in KeysOf(rules, records) {
      KeyOpsOfOther(rules, records, k);
    }
  }

  /** Reading through an exact view finds the committed document, and never fails. */
  lemma ExactRead(rules: Rules, rows: RowSet, view: KeyMap, records: seq<StreamRecord>, k: PrimaryKey)
    requires Exact(view, rows)
    ensures KeyEnd(rules, rows, view, records, k).Ok?
    ensures var ops, before := KeyOps(rules, records, k), Get(DocsAt(view, rows), k);
            && (before.Some? <==> k in view)
            && ReadCurrent(rows, view, ops, k)
               == Ok(if before.Some? && NeedsCurrent(ops) then Some(before.value.doc) else None)
  {
    hide KeyOps, FoldOps;
    DocsAtKey(view, rows, k);
    if k in view {
      assert view[k] in rows && KeyAt(rows, view[k]) == k;
    }
  }

  lemma ResolvedDocAt(
    rules: Rules, rows: RowSet, view: KeyMap, records: seq<StreamRecord>, r: Resolution, k: PrimaryKey)
    requires Exact(view, rows) && Resolves(rules, rows, view, records, KeysOf(rules, records), r)
    ensures Get(CommitDocs(rules, DocsAt(view, rows), records), k)
         == if k in r.inserts then Get(r.inserts, k)
            else if k in r.retired then None
            else Get(DocsAt(view, rows), k)
  {
    var docs := DocsAt(view, rows);
    CommitDocsGet(rules, docs, records, k);
    ExactRead(rules, rows, view, records, k);
    var ops := KeyOps(rules, records, k);
    if k in KeysOf(rules, records) {
      KeyOpsOfNamed(rules, records, k);
      hide KeyOps, FoldOps, DocsAt, KeysOf, Exact, CommitDocs, ReadCurrent;
      assert KeyResolves(KeyEnd(rules, rows, view, records, k), view, k, r);
    } else {
      KeyOpsOfOther(rules, records, k);
    }
  }

  /** What a resolution retires is in the view, and what it replaces it retires. */
  ghost predicate ResolvedKey(view: KeyMap, r: Resolution, k: PrimaryKey) {
    (k in r.retired ==> k in view && view[k] == r.retired[k]) && (k in r.inserts && k in view ==> k in r.retired)
  }

  lemma ResolvesAt(
    rules: Rules, rows: RowSet, view: KeyMap, records: seq<StreamRecord>, r: Resolution, k: PrimaryKey)
    requires Resolves(rules, rows, view, records, KeysOf(rules, records), r)
    ensures ResolvedKey(view, r, k)
  {
    hide KeyEnd, KeysOf;
    if k in KeysOf(rules, records) {
      assert KeyResolves(KeyEnd(rules, rows, view, records, k), view, k, r);
    }
  }

  /** A resolution against an exact view replaces rows soundly. */
  lemma ResolvesReplaces(
    rules: Rules, lance: Lance, view: KeyMap, records: seq<StreamRecord>, r: Resolution, w: NewRows)
    requires Exact(view, lance.rows) && Resolves(rules, lance.rows, view, records, KeysOf(rules, records), r)
    requires LanceWrote(lance, r.inserts, w) && forall row :: row in lance.rows ==> row < lance.nextRow
    ensures Replaces(view, lance.rows, r.retired, KeyRows(w.rows), w.rows)
    ensures KeyRows(w.rows).Keys == r.inserts.Keys
  {
    WroteKeys(lance, r.inserts, w);
    hide *;
    forall k ensures ResolvedKey(view, r, k) {
      ResolvesAt(rules, lance.rows, view, records, r, k);
    }
    KeysReplaced(lance, view, r, w);
  }

  lemma WroteKeys(lance: Lance, inserts: Docs, w: NewRows)
    requires LanceWrote(lance, inserts, w)
    ensures Exact(KeyRows(w.rows), w.rows) && KeyRows(w.rows).Keys == inserts.Keys
  {
    KeyRowsExact(w.rows);
    hide KeyRows, Exact, UniqueKeys;
    forall k ensures k in KeyRows(w.rows) <==> k in inserts {
      DocsAtKey(KeyRows(w.rows), w.rows, k);
    }
  }

  lemma KeysReplaced(lance: Lance, view: KeyMap, r: Resolution, w: NewRows)
    requires Exact(view, lance.rows) && Exact(KeyRows(w.rows), w.rows) && KeyRows(w.rows).Keys == r.inserts.Keys
    requires LanceWrote(lance, r.inserts, w) && forall row :: row in lance.rows ==> row < lance.nextRow
    requires forall k :: ResolvedKey(view, r, k)
    ensures Replaces(view, lance.rows, r.retired, KeyRows(w.rows), w.rows)
  {
    hide Exact, KeyRows, DocsAt, UniqueKeys;
    forall k | k in r.retired ensures k in view && view[k] == r.retired[k] {
      assert ResolvedKey(view, r, k);
    }
    forall k | k in view && k in KeyRows(w.rows) ensures k in r.retired {
      assert ResolvedKey(view, r, k);
    }
  }

  lemma DeltaReplaces(m: KeyMap, r: Resolution, w: NewRows)
    requires KeyRows(w.rows).Keys == r.inserts.Keys && r.retired.Keys <= m.Keys
    ensures ApplyDelta(m, DeltaOf(r, w)) == m - r.retired.Keys + KeyRows(w.rows)
  {
    hide KeyRows;
  }

  /** `parent`, the view of its keys, a batch and its resolution, and what Lance wrote. */
  ghost predicate Applies(
    rules: Rules, parent: Manifest, view: KeyMap, batch: Batch, r: Resolution, w: NewRows)
  {
    && BatchFits(parent.applied, batch)
    && Resolves(rules, parent.lance.rows, view, batch.records, KeysOf(rules, batch.records), r)
    && LanceWrote(parent.lance, r.inserts, w)
  }

  lemma {:induction false} LiveInAll(splits: seq<SplitRef>)
    ensures Live(splits) <= AllRows(splits)
  {
    if splits != [] {
      LiveInAll(splits[..|splits| - 1]);
      LiveInRows(splits[|splits| - 1]);
    }
  }

  lemma WholeReplaces(rules: Rules, parent: Manifest, view: KeyMap, batch: Batch, r: Resolution, w: NewRows)
    requires Whole(parent) && view == KeyRows(parent.lance.rows) && Applies(rules, parent, view, batch, r, w)
    ensures Replaces(view, parent.lance.rows, r.retired, KeyRows(w.rows), w.rows)
    ensures KeyRows(w.rows).Keys == r.inserts.Keys
  {
    KeyRowsExact(parent.lance.rows);
    LiveInAll(parent.splits);
    ResolvesReplaces(rules, parent.lance, view, batch.records, r, w);
  }

  // ---- A link-apply commit keeps a manifest whole ----

  lemma WroteCount(lance: Lance, inserts: Docs, w: NewRows)
    requires LanceWrote(lance, inserts, w)
    ensures |w.rows| == |inserts|
    ensures inserts == map[] ==> w.rows == map[]
  {
    WroteKeys(lance, inserts, w);
    KeyCount(KeyRows(w.rows), w.rows);
    hide LanceWrote, Exact, KeyRows;
    assert |KeyRows(w.rows).Keys| == |inserts.Keys|;
  }

  lemma {:induction false} KeysCount(rules: Rules, records: seq<StreamRecord>)
    ensures |KeysOf(rules, records)| <= |records|
  {
    if records != [] {
      var front, last := records[..|records| - 1], records[|records| - 1];
      assert records == front + [last];
      KeysCount(rules, front);
      KeysStep(rules, front, last);
    }
  }

  lemma ResolvedKeys(rules: Rules, rows: RowSet, view: KeyMap, records: seq<StreamRecord>, r: Resolution)
    requires Resolves(rules, rows, view, records, KeysOf(rules, records), r)
    ensures r.inserts.Keys <= KeysOf(rules, records)
  {
    hide KeysOf, KeyEnd, KeyLetters;
  }

  lemma InsertCount(rules: Rules, records: seq<StreamRecord>, r: Resolution)
    requires r.inserts.Keys <= KeysOf(rules, records)
    ensures |r.inserts| <= |records|
  {
    KeysCount(rules, records);
    hide KeysOf;
    SubsetSize(r.inserts.Keys, KeysOf(rules, records));
  }

  lemma NewRowIds(parent: Manifest, inserts: Docs, w: NewRows)
    requires Whole(parent) && LanceWrote(parent.lance, inserts, w)
    ensures AllRows(parent.splits) !! w.rows.Keys
    ensures forall row :: row in AllRows(parent.splits) + w.rows.Keys ==> row < w.nextRow
  {
  }

  lemma NewSplitRows(base: Lance, inserts: Docs, w: NewRows, path: Path)
    requires LanceWrote(base, inserts, w) && 0 < |inserts| <= U32_MAX
    ensures var s := SplitOf(path, w.rows);
            SplitOk(s) && Rows(s) == LiveRows(s) == w.rows.Keys && SplitKeyed(s, w.rows)
  {
    hide Sorted, SplitOk, Rows, LiveRows, KeyRows, UniqueKeys, DocsAt, RowIds, Runs;
    WroteCount(base, inserts, w);
    SortedAscends(w.rows.Keys);
    var ids := Sorted(w.rows.Keys);
    forall i | 0 <= i < |ids| ensures ids[i] < U64_MAX {
      assert ids[i] in Elements(ids);
      assert ids[i] in w.rows;
    }
    NewSplitOk(path, ids, seq(|ids|, i requires 0 <= i < |ids| => KeyAt(w.rows, ids[i])));
  }

  lemma LinkSplitsOk(parent: Manifest, r: Resolution, w: NewRows, objects: NewObjects)
    requires Whole(parent) && LanceWrote(parent.lance, r.inserts, w)
    requires r.retired.Values <= parent.lance.rows.Keys && |r.inserts| <= U32_MAX
    ensures var splits := LinkSplits(parent, r, w, objects);
            && SplitsOk(splits) && Live(splits) == parent.lance.rows.Keys - r.retired.Values + w.rows.Keys
            && forall row :: row in AllRows(splits) ==> row < w.nextRow
  {
    hide *;
    WholeSplits(parent);
    DeletesLand(parent.splits, r.retired.Values, objects.bitmaps);
    NewRowIds(parent, r.inserts, w);
    LinkSplitsAre(parent, r, w, objects);
    var kept := AfterDeletes(parent.splits, r.retired.Values, objects.bitmaps);
    if r.inserts == map[] {
      WroteCount(parent.lance, r.inserts, w);
      NoneAdded(Live(kept), w.rows.Keys);
      RowsBelow(AllRows(kept), AllRows(parent.splits), w.rows.Keys, w.nextRow);
    } else {
      NewSplitRows(parent.lance, r.inserts, w, objects.split);
      ApartRows(AllRows(kept), AllRows(parent.splits), w.rows.Keys);
      SplitsAppend(kept, SplitOf(objects.split, w.rows));
      RowsBelow(AllRows(LinkSplits(parent, r, w, objects)), AllRows(parent.splits), w.rows.Keys, w.nextRow);
    }
  }

  lemma NoneAdded(a: set<nat>, b: set<nat>)
    requires b == {}
    ensures a + b == a
  {
  }

  lemma RowsBelow(a: set<nat>, b: set<nat>, c: set<nat>, next: nat)
    requires a <= b + c && forall row :: row in b + c ==> row < next
    ensures forall row :: row in a ==> row < next
  {
  }

  lemma ApartRows(a: set<nat>, b: set<nat>, c: set<nat>)
    requires a <= b && b !! c
    ensures a !! c
  {
  }

  lemma WholeSplits(m: Manifest)
    requires Whole(m)
    ensures SplitsOk(m.splits) && Live(m.splits) == m.lance.rows.Keys && m.liveDocs == |m.lance.rows|
  {
    hide SplitsOk, Live, AllRows, UniqueKeys, Keyed;
  }

  /** Deleting docs leaves every split's keys right for rows that are still what they were. */
  lemma {:induction false} DeletesKeepKeys(
    splits: seq<SplitRef>, gone: set<nat>, bitmaps: nat -> Path, rows: RowSet, after: RowSet)
    requires Keyed(splits, rows)
    requires forall r :: r in after && r in AllRows(splits) ==> r in rows && after[r] == rows[r]
    ensures Keyed(AfterDeletes(splits, gone, bitmaps), after)
  {
    if splits != [] {
      var n := |splits| - 1;
      var front := splits[..n];
      assert Keyed(front, rows) && AllRows(splits) == AllRows(front) + Rows(splits[n]);
      hide Rows, AllRows, Hits, RowIds;
      DeletesKeepKeys(front, gone, bitmaps, rows, after);
      SplitKeysKept(splits[n], gone, bitmaps(n), rows, after);
      AfterDeletesStep(splits, gone, bitmaps);
    }
  }

  lemma SplitKeysKept(s: SplitRef, gone: set<nat>, bitmap: Path, rows: RowSet, after: RowSet)
    requires SplitKeyed(s, rows) && forall r :: r in after && r in Rows(s) ==> r in rows && after[r] == rows[r]
    ensures Keyed(AfterOne(s, gone, bitmap), after)
  {
    forall d | 0 <= d < |RowIds(s.ranges)| && RowIds(s.ranges)[d] in after
      ensures RowIds(s.ranges)[d] in rows && after[RowIds(s.ranges)[d]] == rows[RowIds(s.ranges)[d]]
    {
      assert RowIds(s.ranges)[d] in Rows(s);
    }
  }

  lemma LinkSplitsKeyed(parent: Manifest, r: Resolution, w: NewRows, objects: NewObjects)
    requires Whole(parent) && LanceWrote(parent.lance, r.inserts, w) && |r.inserts| <= U32_MAX
    ensures Keyed(LinkSplits(parent, r, w, objects), Replaced(parent.lance.rows, r.retired, w.rows))
  {
    hide *;
    var after := Replaced(parent.lance.rows, r.retired, w.rows);
    OldRowsKept(parent, r, w);
    DeletesKeepKeys(parent.splits, r.retired.Values, objects.bitmaps, parent.lance.rows, after);
    LinkSplitsAre(parent, r, w, objects);
    var kept := AfterDeletes(parent.splits, r.retired.Values, objects.bitmaps);
    if r.inserts != map[] {
      NewSplitRows(parent.lance, r.inserts, w, objects.split);
      NewKeysKept(SplitOf(objects.split, w.rows), parent.lance.rows, r.retired, w.rows);
      KeyedAppend(kept, SplitOf(objects.split, w.rows), after);
    }
  }

  lemma LinkSplitsAre(parent: Manifest, r: Resolution, w: NewRows, objects: NewObjects)
    ensures var kept := AfterDeletes(parent.splits, r.retired.Values, objects.bitmaps);
            LinkSplits(parent, r, w, objects)
            == if r.inserts == map[] then kept else kept + [SplitOf(objects.split, w.rows)]
  {
    hide AfterDeletes, SplitOf;
  }

  lemma KeyedAppend(splits: seq<SplitRef>, s: SplitRef, rows: RowSet)
    requires Keyed(splits, rows) && SplitKeyed(s, rows)
    ensures Keyed(splits + [s], rows)
  {
    hide SplitKeyed;
  }

  lemma OldRowsKept(parent: Manifest, r: Resolution, w: NewRows)
    requires Whole(parent) && LanceWrote(parent.lance, r.inserts, w)
    ensures Keyed(parent.splits, parent.lance.rows)
    ensures var after := Replaced(parent.lance.rows, r.retired, w.rows);
            forall row :: row in after && row in AllRows(parent.splits) ==>
              row in parent.lance.rows && after[row] == parent.lance.rows[row]
  {
    NewRowIds(parent, r.inserts, w);
    hide AllRows, SplitsOk, Live, Keyed, UniqueKeys, LanceWrote;
  }

  lemma NewKeysKept(s: SplitRef, rows: RowSet, retired: KeyMap, added: RowSet)
    requires SplitKeyed(s, added) && Rows(s) == added.Keys
    ensures SplitKeyed(s, Replaced(rows, retired, added))
  {
    forall d | 0 <= d < |RowIds(s.ranges)| ensures RowIds(s.ranges)[d] in added {
      assert RowIds(s.ranges)[d] in Rows(s);
    }
  }

  /** Applying a batch to a whole manifest, resolved against the exact view of its keys, gives a whole
      manifest: every live row is one live split doc, every key has one row, every count is right. */
  lemma LinkKeepsWhole(
    rules: Rules, parent: Manifest, view: KeyMap, batch: Batch, r: Resolution, w: NewRows,
    parentPath: Option<Path>, started: nat, objects: NewObjects, indexes: set<string>)
    requires Whole(parent) && view == KeyRows(parent.lance.rows) && Applies(rules, parent, view, batch, r, w)
    requires |batch.records| <= U32_MAX
    ensures Whole(LinkManifest(parent, parentPath, started, batch, r, w, objects, indexes))
  {
    var m := LinkManifest(parent, parentPath, started, batch, r, w, objects, indexes);
    assert LanceWrote(parent.lance, r.inserts, w)
        && Resolves(rules, parent.lance.rows, view, batch.records, KeysOf(rules, batch.records), r);
    hide *;
    LinkRows(rules, parent, view, batch, r, w, parentPath, started, objects, indexes);
    WholeReplaces(rules, parent, view, batch, r, w);
    ReplacedCount(view, parent.lance.rows, r.retired, KeyRows(w.rows), w.rows);
    ReplacedExact(view, parent.lance.rows, r.retired, KeyRows(w.rows), w.rows);
    ExactIsKeyRows(view - r.retired.Keys + KeyRows(w.rows), m.lance.rows);
    ReplacedRowIds(parent.lance.rows, r.retired, w.rows);
    ResolvedKeys(rules, parent.lance.rows, view, batch.records, r);
    InsertCount(rules, batch.records, r);
    LinkSplitsOk(parent, r, w, objects);
    LinkSplitsKeyed(parent, r, w, objects);
    WroteCount(parent.lance, r.inserts, w);
    WroteKeys(parent.lance, r.inserts, w);
    KeyCount(KeyRows(w.rows), w.rows);
    WholeAgain(parent, m, r, w);
  }

  lemma LinkRows(
    rules: Rules, parent: Manifest, view: KeyMap, batch: Batch, r: Resolution, w: NewRows,
    parentPath: Option<Path>, started: nat, objects: NewObjects, indexes: set<string>)
    requires Whole(parent) && view == KeyRows(parent.lance.rows) && Applies(rules, parent, view, batch, r, w)
    ensures var m := LinkManifest(parent, parentPath, started, batch, r, w, objects, indexes);
            && m.lance.rows == Replaced(parent.lance.rows, r.retired, w.rows)
            && m.liveDocs == parent.liveDocs + |r.inserts| - |r.retired|
            && m.splits == LinkSplits(parent, r, w, objects)
            && (m.lance.nextRow == w.nextRow
                || (m.splits == parent.splits && m.lance.nextRow == parent.lance.nextRow))
  {
    hide Whole, Resolves, KeyRows, BatchFits, KeysOf, DeltaOf, Skipped, UniqueKeys, AfterDeletes, SplitOf;
    if r.inserts == map[] && r.retired == map[] {
      WroteCount(parent.lance, r.inserts, w);
      assert r.retired.Values == {};
      NoDeletes(parent.splits, objects.bitmaps);
    }
  }

  lemma WholeAgain(parent: Manifest, m: Manifest, r: Resolution, w: NewRows)
    requires Whole(parent) && LanceWrote(parent.lance, r.inserts, w)
    requires SplitsOk(m.splits) && Live(m.splits) == m.lance.rows.Keys && UniqueKeys(m.lance.rows)
    requires Keyed(m.splits, m.lance.rows)
    requires |m.lance.rows| == |parent.lance.rows| - |r.retired| + |r.inserts|
    requires m.liveDocs == parent.liveDocs + |r.inserts| - |r.retired|
    requires m.lance.nextRow == w.nextRow || (m.splits == parent.splits && m.lance.nextRow == parent.lance.nextRow)
    requires forall row :: row in AllRows(m.splits) ==> row < w.nextRow
    ensures Whole(m)
  {
    hide SplitsOk, Live, AllRows, UniqueKeys, Keyed;
  }

  /** What replaying a manifest's PK delta applies. */
  function Replay(m: Manifest): Delta {
    if m.kind.LinkApply? && m.delta.Some? then m.delta.value.entries else map[]
  }

  lemma NothingToApply(m: KeyMap)
    ensures ApplyDelta(m, map[]) == m
  {
  }

  /** The PK delta of a commit takes the parent's key map to its own. */
  lemma LinkKeyRows(
    rules: Rules, parent: Manifest, view: KeyMap, batch: Batch, r: Resolution, w: NewRows,
    parentPath: Option<Path>, started: nat, objects: NewObjects, indexes: set<string>)
    requires Whole(parent) && view == KeyRows(parent.lance.rows) && Applies(rules, parent, view, batch, r, w)
    ensures var m := LinkManifest(parent, parentPath, started, batch, r, w, objects, indexes);
            && KeyRows(m.lance.rows) == ApplyDelta(view, Replay(m))
            && KeyRows(m.lance.rows) == view - r.retired.Keys + KeyRows(w.rows)
  {
    var m := LinkManifest(parent, parentPath, started, batch, r, w, objects, indexes);
    ReplayIsDelta(parent, batch, r, w, parentPath, started, objects, indexes);
    hide *;
    LinkRows(rules, parent, view, batch, r, w, parentPath, started, objects, indexes);
    WholeReplaces(rules, parent, view, batch, r, w);
    ReplacedExact(view, parent.lance.rows, r.retired, KeyRows(w.rows), w.rows);
    ExactIsKeyRows(view - r.retired.Keys + KeyRows(w.rows), m.lance.rows);
    RetiredKeys(view, parent.lance.rows, r.retired, KeyRows(w.rows), w.rows);
    DeltaReplaces(view, r, w);
  }

  /** A commit moved key `k`: it has a row only before or only after, or another one. */
  ghost predicate RowMoved(before: KeyMap, after: KeyMap, k: PrimaryKey) {
    (k in before) != (k in after) || (k in before && k in after && before[k] != after[k])
  }

  /** The PK delta names exactly the keys whose row the commit changed. */
  lemma LinkDeltaExact(
    rules: Rules, parent: Manifest, view: KeyMap, batch: Batch, r: Resolution, w: NewRows,
    parentPath: Option<Path>, started: nat, objects: NewObjects, indexes: set<string>, k: PrimaryKey)
    requires Whole(parent) && view == KeyRows(parent.lance.rows) && Applies(rules, parent, view, batch, r, w)
    ensures var m := LinkManifest(parent, parentPath, started, batch, r, w, objects, indexes);
            k in Replay(m) <==> RowMoved(view, KeyRows(m.lance.rows), k)
  {
    hide *;
    LinkKeyRows(rules, parent, view, batch, r, w, parentPath, started, objects, indexes);
    ReplayIsDelta(parent, batch, r, w, parentPath, started, objects, indexes);
    WholeReplaces(rules, parent, view, batch, r, w);
    RetiredKeys(view, parent.lance.rows, r.retired, KeyRows(w.rows), w.rows);
    AddedRows(view, parent.lance.rows, r.retired, KeyRows(w.rows), w.rows, k);
    ResolvesNoOther(r, w, view, k);
  }

  lemma AddedRows(m: KeyMap, rows: RowSet, retired: KeyMap, a: KeyMap, added: RowSet, k: PrimaryKey)
    requires Replaces(m, rows, retired, a, added)
    ensures k in m && k in a ==> m[k] != a[k]
  {
  }

  lemma ResolvesNoOther(r: Resolution, w: NewRows, view: KeyMap, k: PrimaryKey)
    requires KeyRows(w.rows).Keys == r.inserts.Keys && r.retired.Keys <= view.Keys
    requires k in view && k in KeyRows(w.rows) ==> view[k] != KeyRows(w.rows)[k]
    ensures k in DeltaOf(r, w) <==> RowMoved(view, view - r.retired.Keys + KeyRows(w.rows), k)
  {
    hide KeyRows;
  }

  lemma RetiredKeys(m: KeyMap, rows: RowSet, retired: KeyMap, a: KeyMap, added: RowSet)
    requires Replaces(m, rows, retired, a, added)
    ensures retired.Keys <= m.Keys
  {
    hide Exact;
  }

  lemma ReplayIsDelta(
    parent: Manifest, batch: Batch, r: Resolution, w: NewRows,
    parentPath: Option<Path>, started: nat, objects: NewObjects, indexes: set<string>)
    ensures Replay(LinkManifest(parent, parentPath, started, batch, r, w, objects, indexes)) == DeltaOf(r, w)
  {
    hide KeyRows;
    if r.inserts == map[] && r.retired == map[] {
      assert DeltaOf(r, w) == map[];
    }
  }

  /** A commit leaves the documents that committing its batch leaves. */
  lemma LinkDocs(
    rules: Rules, parent: Manifest, view: KeyMap, batch: Batch, r: Resolution, w: NewRows,
    parentPath: Option<Path>, started: nat, objects: NewObjects, indexes: set<string>)
    requires Whole(parent) && view == KeyRows(parent.lance.rows) && Applies(rules, parent, view, batch, r, w)
    ensures ManifestDocs(LinkManifest(parent, parentPath, started, batch, r, w, objects, indexes))
         == CommitDocs(rules, ManifestDocs(parent), batch.records)
  {
    var m := LinkManifest(parent, parentPath, started, batch, r, w, objects, indexes);
    AppliesParts(rules, parent, view, batch, r, w);
    hide *;
    LinkKeyRows(rules, parent, view, batch, r, w, parentPath, started, objects, indexes);
    LinkRows(rules, parent, view, batch, r, w, parentPath, started, objects, indexes);
    WholeReplaces(rules, parent, view, batch, r, w);
    ReplacedDocs(view, parent.lance.rows, r.retired, KeyRows(w.rows), w.rows);
    ResolvedDocs(rules, parent.lance.rows, view, batch.records, r);
    ManifestDocsAre(parent);
    ManifestDocsAre(m);
  }

  lemma ManifestDocsAre(m: Manifest)
    ensures ManifestDocs(m) == DocsAt(KeyRows(m.lance.rows), m.lance.rows)
  {
  }

  lemma AppliesParts(rules: Rules, parent: Manifest, view: KeyMap, batch: Batch, r: Resolution, w: NewRows)
    requires Whole(parent) && view == KeyRows(parent.lance.rows) && Applies(rules, parent, view, batch, r, w)
    ensures Exact(view, parent.lance.rows) && DocsAt(KeyRows(w.rows), w.rows) == r.inserts
    ensures Resolves(rules, parent.lance.rows, view, batch.records, KeysOf(rules, batch.records), r)
  {
    hide Resolves, Exact, DocsAt, KeyRows, SplitsOk, Live, AllRows;
    KeyRowsExact(parent.lance.rows);
  }

  /** Committing a batch retires and inserts the documents its resolution names. */
  lemma ResolvedDocs(rules: Rules, rows: RowSet, view: KeyMap, records: seq<StreamRecord>, r: Resolution)
    requires Exact(view, rows) && Resolves(rules, rows, view, records, KeysOf(rules, records), r)
    ensures CommitDocs(rules, DocsAt(view, rows), records) == DocsAt(view, rows) - r.retired.Keys + r.inserts
  {
    hide *;
    var before := DocsAt(view, rows);
    var docs := CommitDocs(rules, before, records);
    forall k
      ensures Get(docs, k) == if k in r.inserts then Get(r.inserts, k)
                              else if k in r.retired.Keys then None
                              else Get(before, k)
    {
      ResolvedDocAt(rules, rows, view, records, r, k);
    }
    MergedDocs(docs, before, r.retired.Keys, r.inserts);
  }

  // ---- Nothing in the commit can fail ----

  /** Through the exact view of a whole parent, every key of every batch resolves. */
  lemma ResolveNeverFails(rules: Rules, parent: Manifest, view: KeyMap, records: seq<StreamRecord>, k: PrimaryKey)
    requires Whole(parent) && view == KeyRows(parent.lance.rows)
    ensures KeyEnd(rules, parent.lance.rows, view, records, k).Ok?
  {
    assert UniqueKeys(parent.lance.rows);
    hide *;
    KeyRowsExact(parent.lance.rows);
    ExactRead(rules, parent.lance.rows, view, records, k);
  }

  /** Every row a batch deletes is a live doc of a split that can take a bitmap, and the live docs are
      at least the deleted ones. */
  lemma CommitNeverFails(rules: Rules, parent: Manifest, view: KeyMap, batch: Batch, r: Resolution, w: NewRows)
    requires Whole(parent) && view == KeyRows(parent.lance.rows) && Applies(rules, parent, view, batch, r, w)
    ensures Acceptable(RangesOf(parent.splits)) && CanDelete(parent.splits, r.retired.Values)
    ensures parent.liveDocs + |r.inserts| >= |r.retired|
  {
    hide *;
    WholeSplits(parent);
    SplitsAcceptable(parent.splits);
    WholeReplaces(rules, parent, view, batch, r, w);
    ReplacedCount(view, parent.lance.rows, r.retired, KeyRows(w.rows), w.rows);
    DeletesAreLocated(parent.splits, r.retired.Values);
    SubsetSize(r.retired.Values, parent.lance.rows.Keys);
  }

  /** Folding ops of one key from its document leaves a document of that key. */
  lemma {:induction false} FoldKeepsKey(rules: Rules, s: KeyState, ops: seq<StreamRecord>, k: PrimaryKey)
    requires s.doc.Some? ==> s.doc.value.pk == k
    requires forall i :: 0 <= i < |ops| ==> Touches(rules, k, ops[i])
    ensures var end := FoldOps(rules, s, ops); end.doc.Some? ==> end.doc.value.pk == k
  {
    if ops != [] {
      FoldKeepsKey(rules, s, ops[..|ops| - 1], k);
      assert Touches(rules, k, ops[|ops| - 1]);
    }
  }

  /** A key whose fold starts from a document of its own, or from none, inserts one under its key. */
  lemma InsertKeyed(
    rules: Rules, view: KeyMap, records: seq<StreamRecord>, r: Resolution, k: PrimaryKey, start: Option<Document>)
    requires KeyResolves(Ok(Ended(rules, records, k, start, k in view)), view, k, r) && k in r.inserts
    requires start.Some? ==> start.value.pk == k
    ensures r.inserts[k].doc.pk == k
  {
    var ops := KeyOps(rules, records, k);
    FilterKeeps(r => Touches(rules, k, r), records);
    assert forall i :: 0 <= i < |ops| ==> Touches(rules, k, ops[i]);
    FoldKeepsKey(rules, KeyState(start, None, multiset{}), ops, k);
  }

  /** A resolution inserts every document under its own key, so Lance can write what it asks. */
  lemma InsertsKeyed(rules: Rules, rows: RowSet, view: KeyMap, records: seq<StreamRecord>, r: Resolution, k: PrimaryKey)
    requires Resolves(rules, rows, view, records, KeysOf(rules, records), r) && k in r.inserts
    ensures r.inserts[k].doc.pk == k
  {
    hide Ended, KeyOps;
    assert KeyResolves(KeyEnd(rules, rows, view, records, k), view, k, r);
    var current := ReadCurrent(rows, view, KeyOps(rules, records, k), k);
    InsertKeyed(rules, view, records, r, k, current.value);
  }

  // ---- Building an index ----

  /** The manifest of an index build on `parent`: the indexes `removed` make way for `index`, and
      everything else is the parent's. */
  function IndexManifest(
    parent: Manifest, parentPath: Option<Path>, started: nat, index: string, removed: set<string>,
    files: set<Path>, kind: Kind)
    : Manifest
  {
    parent.(
      lance := parent.lance.(files := files),
      version := parent.version + 1, parentVersion := parent.version, parent := parentPath,
      createdAt := started, indexes := parent.indexes - removed + {index},
      kind := kind, delta := None, letters := None)
  }

  /** An index build loses no row, split or offset, and replays as nothing. */
  lemma IndexKeepsAll(
    parent: Manifest, parentPath: Option<Path>, started: nat, index: string, removed: set<string>,
    files: set<Path>, kind: Kind)
    ensures var m := IndexManifest(parent, parentPath, started, index, removed, files, kind);
            && (Whole(parent) ==> Whole(m)) && ManifestDocs(m) == ManifestDocs(parent)
            && KeyRows(m.lance.rows) == ApplyDelta(KeyRows(parent.lance.rows), Replay(m))
            && m.applied == parent.applied && m.splits == parent.splits
            && (forall n :: n in m.indexes <==> n == index || (n in parent.indexes && n !in removed))
            && m.createdAt == started && m.liveDocs == parent.liveDocs
  {
    hide KeyRows, SplitsOk, Live, AllRows, UniqueKeys, Keyed;
    NothingToApply(KeyRows(parent.lance.rows));
  }
}
