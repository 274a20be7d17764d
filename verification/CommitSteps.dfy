/** Steps 7 to 10 of a link-apply commit, in the order the code takes them
    (`commit_locked` and `write_split` of crates/loams-collection/src/target.rs). */
module CommitSteps {
  import opened Prelude
  import opened Sorting
  import opened PrimaryKeys
  import opened RowLocator
  import opened Splits
  import opened Resolve
  import opened Offsets
  import opened RowSets
  import opened Commits

  /** A new row and the key of its document. */
  datatype NewDoc = NewDoc(row: RowId, key: PrimaryKey)

  predicate RowLe(a: NewDoc, b: NewDoc) {
    a.row <= b.row
  }

  /** `docs` are the rows of the keys `done`, each once. */
  ghost predicate Lists(docs: seq<NewDoc>, newRows: KeyMap, done: set<PrimaryKey>) {
    && (forall i, j :: 0 <= i < j < |docs| ==> docs[i].key != docs[j].key)
    && (forall k :: k in done <==> exists i :: 0 <= i < |docs| && docs[i].key == k)
    && (forall i :: 0 <= i < |docs| ==> docs[i].key in newRows && docs[i].row == newRows[docs[i].key])
  }

  lemma ListsOneMore(docs: seq<NewDoc>, newRows: KeyMap, done: set<PrimaryKey>, k: PrimaryKey)
    requires Lists(docs, newRows, done) && k in newRows && k !in done
    ensures Lists(docs + [NewDoc(newRows[k], k)], newRows, done + {k})
  {
    var more := docs + [NewDoc(newRows[k], k)];
    forall key | key in done + {k} ensures exists i :: 0 <= i < |more| && more[i].key == key {
      if key == k {
        assert more[|docs|].key == k;
      } else {
        var i :| 0 <= i < |docs| && docs[i].key == key;
        assert more[i].key == key;
      }
    }
  }

  lemma SortedMember(docs: seq<NewDoc>, sorted: seq<NewDoc>, d: NewDoc)
    requires multiset(sorted) == multiset(docs)
    ensures d in sorted <==> d in docs
  {
    assert d in sorted <==> d in multiset(sorted);
    assert d in docs <==> d in multiset(docs);
  }

  /** `docs` are all of `added`, each row once, with its key. */
  ghost predicate DocsOf(docs: seq<NewDoc>, added: RowSet) {
    && RowLocator.Distinct(docs)
    && (forall d :: d in docs ==> d.row in added && d.key == KeyAt(added, d.row))
    && (forall r :: r in added ==> NewDoc(r, KeyAt(added, r)) in docs)
  }

  lemma ListsDocs(docs: seq<NewDoc>, newRows: KeyMap, added: RowSet)
    requires Exact(newRows, added) && Lists(docs, newRows, newRows.Keys)
    ensures DocsOf(docs, added)
  {
    forall r | r in added ensures NewDoc(r, KeyAt(added, r)) in docs {
      var k := KeyAt(added, r);
      var i :| 0 <= i < |docs| && docs[i].key == k;
      assert docs[i] == NewDoc(r, k);
    }
  }

  lemma SortKeepsDocs(docs: seq<NewDoc>, added: RowSet)
    requires DocsOf(docs, added)
    ensures DocsOf(Sort(RowLe, docs), added)
  {
    var sorted := Sort(RowLe, docs);
    hide Sort;
    DistinctPermutation(docs, sorted);
    forall d ensures d in sorted <==> d in docs { SortedMember(docs, sorted, d); }
  }

  /** Sorted docs are the rows in ascending order. */
  lemma SortedDocs(docs: seq<NewDoc>, added: RowSet)
    requires DocsOf(docs, added)
    ensures var sorted := Sort(RowLe, docs);
            DocsOf(sorted, added) && Rows(sorted) == Splits.Sorted(added.Keys)
  {
    hide *;
    var sorted := Sort(RowLe, docs);
    LeIsPreorder();
    SortSorts(RowLe, docs);
    SortKeepsDocs(docs, added);
    RowsAscend(sorted, added);
    RowsElements(sorted, added);
    SortedAscends(added.Keys);
    AscendingUnique(Rows(sorted), Splits.Sorted(added.Keys));
  }

  lemma LeIsPreorder()
    ensures TotalPreorder(RowLe)
  {
  }

  lemma RowsAscend(docs: seq<NewDoc>, added: RowSet)
    requires SortedBy(RowLe, docs) && DocsOf(docs, added)
    ensures Ascending(Rows(docs))
  {
    forall i, j | 0 <= i < j < |docs| ensures docs[i].row < docs[j].row {
      assert RowLe(docs[i], docs[j]) && docs[i] in docs && docs[j] in docs;
    }
  }

  lemma RowsElements(docs: seq<NewDoc>, added: RowSet)
    requires DocsOf(docs, added)
    ensures Elements(Rows(docs)) == added.Keys
  {
    var ids := Rows(docs);
    forall r ensures r in Elements(ids) <==> r in added {
      if r in ids {
        var i :| 0 <= i < |ids| && ids[i] == r;
        assert docs[i] in docs;
      }
      if r in added {
        var i :| 0 <= i < |docs| && docs[i] == NewDoc(r, KeyAt(added, r));
        assert ids[i] == r;
      }
    }
  }

  lemma IsSplitOf(docs: seq<NewDoc>, added: RowSet, path: Path)
    requires DocsOf(docs, added) && Rows(docs) == Splits.Sorted(added.Keys)
    ensures NewSplit(path, Rows(docs), Keys(docs)) == SplitOf(path, added)
  {
    hide Splits.Sorted, Runs;
    var ids := Splits.Sorted(added.Keys);
    forall i | 0 <= i < |ids| ensures ids[i] in added && Keys(docs)[i] == KeyAt(added, ids[i]) {
      assert docs[i] in docs && ids[i] == docs[i].row;
    }
  }

  function Keys(docs: seq<NewDoc>): (r: seq<PrimaryKey>) {
    seq(|docs|, i requires 0 <= i < |docs| => docs[i].key)
  }

  function Rows(docs: seq<NewDoc>): (r: seq<nat>) {
    seq(|docs|, i requires 0 <= i < |docs| => docs[i].row)
  }

  /** Builds the split of the new rows, in ascending row-id order. */
  method WriteSplit(newRows: KeyMap, ghost added: RowSet, path: Path) returns (s: SplitRef)
    requires Exact(newRows, added)
    ensures s == SplitOf(path, added)
  {
    var docs: seq<NewDoc> := [];
    var todo := newRows.Keys;
    assert Lists(docs, newRows, newRows.Keys - todo);
    hide *;
    while todo != {}
      invariant todo <= newRows.Keys && Lists(docs, newRows, newRows.Keys - todo)
      decreases todo
    {
      var k :| k in todo;
      ListsOneMore(docs, newRows, newRows.Keys - todo, k);
      assert newRows.Keys - todo + {k} == newRows.Keys - (todo - {k});
      docs := docs + [NewDoc(newRows[k], k)];
      todo := todo - {k};
    }
    assert newRows.Keys - todo == newRows.Keys;
    ListsDocs(docs, newRows, added);
    SortedDocs(docs, added);
    docs := Sort(RowLe, docs);
    var ids := Rows(docs);
    var ranges := RunsOf(ids);
    IsSplitOf(docs, added, path);
    NewSplitIs(path, ids, Keys(docs));
    s := SplitRef(path, |ids|, 0, ranges, None, Keys(docs), {});
  }

  lemma NewSplitIs(path: Path, ids: seq<nat>, keys: seq<PrimaryKey>)
    ensures NewSplit(path, ids, keys) == SplitRef(path, |ids|, 0, Runs(ids), None, keys, {})
  {
  }

  /** The PK delta: the new row of every written key, nothing for a key deleted without replacement. */
  method WriteDelta(r: Resolution, newRows: KeyMap, ghost w: NewRows) returns (delta: Delta)
    requires newRows == KeyRows(w.rows) && newRows.Keys == r.inserts.Keys
    ensures delta == DeltaOf(r, w)
  {
    hide KeyRows, DeltaOf;
    delta := map[];
    var todo := r.inserts.Keys;
    while todo != {}
      invariant todo <= r.inserts.Keys && delta.Keys == r.inserts.Keys - todo
      invariant forall k :: k in delta ==> delta[k] == Some(newRows[k])
      decreases todo
    {
      var k :| k in todo;
      delta := delta[k := Some(newRows[k])];
      todo := todo - {k};
    }
    todo := r.retired.Keys - r.inserts.Keys;
    while todo != {}
      invariant todo <= r.retired.Keys - r.inserts.Keys && delta.Keys == r.inserts.Keys + r.retired.Keys - todo
      invariant forall k :: k in delta ==> delta[k] == if k in newRows then Some(newRows[k]) else None
      decreases todo
    {
      var k :| k in todo;
      delta := delta[k := None];
      todo := todo - {k};
    }
    IsDelta(r, w, delta);
  }

  lemma IsDelta(r: Resolution, w: NewRows, delta: Delta)
    requires delta.Keys == r.inserts.Keys + r.retired.Keys
    requires forall k :: k in delta ==> delta[k] == if k in KeyRows(w.rows) then Some(KeyRows(w.rows)[k]) else None
    ensures delta == DeltaOf(r, w)
  {
    hide KeyRows;
  }

  /** The splits of the next manifest. */
  method NextSplits(
    parent: Manifest, locator: Locator, r: Resolution, ghost w: NewRows, newRows: KeyMap, objects: NewObjects)
    returns (splits: Result<seq<SplitRef>, Corrupt>)
    requires LocatorOf(locator, RangesOf(parent.splits))
    requires LanceWrote(parent.lance, r.inserts, w) && newRows == KeyRows(w.rows)
    ensures splits.Ok? ==> splits.value == LinkSplits(parent, r, w, objects)
    ensures splits.Ok? <==> CanDelete(parent.splits, r.retired.Values)
  {
    hide KeyRows, LanceWrote, LocatorOf, CanDelete, Exact, AfterDeletes, SplitOf;
    WroteKeys(parent.lance, r.inserts, w);
    var deleted := DeleteRows(locator, parent.splits, r.retired.Values, objects.bitmaps);
    if deleted.Err? {
      return Err(Corrupt);
    }
    if r.inserts == map[] {
      return deleted;
    }
    var s := WriteSplit(newRows, w.rows, objects.split);
    splits := Ok(deleted.value + [s]);
  }

  /** The manifest of the commit, from the resolution and what Lance wrote. */
  method NextManifest(
    parent: Manifest, parentPath: Option<Path>, started: nat, batch: Batch, skipped: int, locator: Locator,
    r: Resolution, w: NewRows, newRows: KeyMap, objects: NewObjects, indexes: set<string>)
    returns (m: Result<Manifest, Corrupt>)
    requires skipped == Skipped(parent.applied, batch) && LocatorOf(locator, RangesOf(parent.splits))
    requires LanceWrote(parent.lance, r.inserts, w) && newRows == KeyRows(w.rows)
    ensures m.Ok? ==> m.value == LinkManifest(parent, parentPath, started, batch, r, w, objects, indexes)
    ensures m.Ok? <==> CanDelete(parent.splits, r.retired.Values) && parent.liveDocs + |r.inserts| >= |r.retired|
  {
    hide KeyRows, LanceWrote, LocatorOf, CanDelete, LinkSplits, DeltaOf, Skipped, RangesOf, Exact, ChangesRows,
         Replaced, LinkApplied;
    WroteKeys(parent.lance, r.inserts, w);
    var lance := parent.lance;
    if ChangesRows(r) {
      lance := Lance(Replaced(parent.lance.rows, r.retired, w.rows), w.nextRow, w.files);
    }
    var splits := NextSplits(parent, locator, r, w, newRows, objects);
    if splits.Err? {
      return Err(Corrupt);
    }
    var entries := WriteDelta(r, newRows, w);
    NoEntries(r, w);
    var delta := if entries == map[] then None else Some(DeltaFile(objects.delta, entries));
    var letters := if r.letters == multiset{} then None else Some(objects.letters);
    if parent.liveDocs + |r.inserts| < |r.retired| {
      return Err(Corrupt);
    }
    m := Ok(LinkApplied(parent, parentPath, started, batch, r, lance, splits.value, indexes, delta, letters, skipped));
  }

  lemma NoEntries(r: Resolution, w: NewRows)
    ensures DeltaOf(r, w) == map[] <==> !ChangesRows(r)
  {
    hide KeyRows;
    assert DeltaOf(r, w).Keys == r.inserts.Keys + r.retired.Keys;
    assert r.inserts == map[] <==> r.inserts.Keys == {};
    assert r.retired == map[] <==> r.retired.Keys == {};
  }
}
