/** The rows of a Lance version, seen by key, and how a commit replaces some of them. */
module RowSets {
  import opened Prelude
  import opened PrimaryKeys
  import opened Resolve
  import opened Batching

  type RowSet = map<RowId, StoredDoc>
  type KeyMap = map<PrimaryKey, RowId>

  function KeyAt(rows: RowSet, r: RowId): PrimaryKey
    requires r in rows
  {
    rows[r].doc.pk
  }

  function RowKeys(rows: RowSet): set<PrimaryKey> {
    set r | r in rows :: KeyAt(rows, r)
  }

  /** No key has two rows. */
  ghost predicate UniqueKeys(rows: RowSet) {
    forall r, s :: r in rows && s in rows && KeyAt(rows, r) == KeyAt(rows, s) ==> r == s
  }

  ghost function RowOf(rows: RowSet, k: PrimaryKey): (r: RowId)
    requires k in RowKeys(rows)
    ensures r in rows && KeyAt(rows, r) == k
  {
    var r :| r in rows && KeyAt(rows, r) == k;
    r
  }

  /** The row of every live key. */
  ghost function KeyRows(rows: RowSet): KeyMap {
    map k | k in RowKeys(rows) :: RowOf(rows, k)
  }

  /** `m` maps every key of `rows` to its only row, and no other key. */
  ghost predicate Exact(m: KeyMap, rows: RowSet) {
    && (forall k :: k in m ==> m[k] in rows && KeyAt(rows, m[k]) == k)
    && (forall r :: r in rows ==> KeyAt(rows, r) in m && m[KeyAt(rows, r)] == r)
  }

  lemma KeyRowsExact(rows: RowSet)
    requires UniqueKeys(rows)
    ensures Exact(KeyRows(rows), rows)
  {
  }

  /** An exact key map is the only one. */
  lemma ExactIsKeyRows(m: KeyMap, rows: RowSet)
    requires Exact(m, rows)
    ensures UniqueKeys(rows) && m == KeyRows(rows)
  {
    forall r, s | r in rows && s in rows && KeyAt(rows, r) == KeyAt(rows, s) ensures r == s {
      assert m[KeyAt(rows, r)] == r;
    }
    assert m.Keys == RowKeys(rows);
  }

  lemma {:induction false} KeyCount(m: KeyMap, rows: RowSet)
    requires Exact(m, rows)
    ensures |m| == |rows|
    decreases |rows|
  {
    if rows == map[] {
      assert m == map[];
    } else {
      var r :| r in rows;
      var k := KeyAt(rows, r);
      KeyCount(m - {k}, rows - {r});
      assert (m - {k}).Keys == m.Keys - {k} && (rows - {r}).Keys == rows.Keys - {r};
    }
  }

  // ---- Replacing rows ----

  /** The rows without those of `retired`, with `added`. */
  function Replaced(rows: RowSet, retired: KeyMap, added: RowSet): RowSet {
    rows - retired.Values + added
  }

  /** What makes a replacement keep one row a key: `retired` names live rows by their keys, among
      them every key that gets a new row, and new rows have new ids. */
  ghost predicate Replaces(m: KeyMap, rows: RowSet, retired: KeyMap, a: KeyMap, added: RowSet) {
    && Exact(m, rows) && Exact(a, added) && added.Keys !! rows.Keys
    && (forall k :: k in retired ==> k in m && m[k] == retired[k])
    && m.Keys * a.Keys <= retired.Keys
  }

  lemma KeptRow(m: KeyMap, rows: RowSet, retired: KeyMap, a: KeyMap, added: RowSet, k: PrimaryKey)
    requires Replaces(m, rows, retired, a, added) && k in m
    ensures m[k] in retired.Values <==> k in retired
  {
    if m[k] in retired.Values {
      var j :| j in retired && retired[j] == m[k];
      assert KeyAt(rows, m[j]) == j && KeyAt(rows, m[k]) == k;
    }
  }

  /** A replacement is exact again, for the key map with the retired keys taken out and the new ones
      put in. */
  lemma ReplacedExact(m: KeyMap, rows: RowSet, retired: KeyMap, a: KeyMap, added: RowSet)
    requires Replaces(m, rows, retired, a, added)
    ensures Exact(m - retired.Keys + a, Replaced(rows, retired, added))
  {
    var now, next := m - retired.Keys + a, Replaced(rows, retired, added);
    forall k | k in now ensures now[k] in next && KeyAt(next, now[k]) == k {
      if k !in a {
        KeptRow(m, rows, retired, a, added, k);
      }
    }
    forall r | r in next ensures KeyAt(next, r) in now && now[KeyAt(next, r)] == r {
      if r !in added {
        KeptRow(m, rows, retired, a, added, KeyAt(rows, r));
      }
    }
  }

  /** The documents the key map `m` finds. */
  function DocsAt(m: KeyMap, rows: RowSet): Docs {
    map k | k in m && m[k] in rows :: rows[m[k]]
  }

  lemma DocsAtKey(m: KeyMap, rows: RowSet, k: PrimaryKey)
    requires Exact(m, rows)
    ensures k in DocsAt(m, rows) <==> k in m
    ensures k in m ==> DocsAt(m, rows)[k] == rows[m[k]]
  {
  }

  lemma ReplacedDoc(m: KeyMap, rows: RowSet, retired: KeyMap, a: KeyMap, added: RowSet, k: PrimaryKey)
    requires Replaces(m, rows, retired, a, added) && k in m - retired.Keys + a
    ensures var r := (m - retired.Keys + a)[k];
            && r in Replaced(rows, retired, added)
            && Replaced(rows, retired, added)[r] == if k in a then added[a[k]] else rows[m[k]]
  {
    if k !in a {
      KeptRow(m, rows, retired, a, added, k);
    }
  }

  lemma ReplacedDocAt(m: KeyMap, rows: RowSet, retired: KeyMap, a: KeyMap, added: RowSet, k: PrimaryKey)
    requires Replaces(m, rows, retired, a, added)
    ensures Get(DocsAt(m - retired.Keys + a, Replaced(rows, retired, added)), k)
         == if k in a then Get(DocsAt(a, added), k)
            else if k in retired then None
            else Get(DocsAt(m, rows), k)
  {
    var now := m - retired.Keys + a;
    ReplacedExact(m, rows, retired, a, added);
    assert Exact(m, rows) && Exact(a, added);
    DocsAtKey(now, Replaced(rows, retired, added), k);
    DocsAtKey(m, rows, k);
    DocsAtKey(a, added, k);
    if k in now {
      ReplacedDoc(m, rows, retired, a, added, k);
    }
    hide Exact, Replaces, Replaced, DocsAt;
  }

  /** A replacement takes the retired documents out and puts the new ones in. */
  lemma ReplacedDocs(m: KeyMap, rows: RowSet, retired: KeyMap, a: KeyMap, added: RowSet)
    requires Replaces(m, rows, retired, a, added)
    ensures DocsAt(m - retired.Keys + a, Replaced(rows, retired, added))
         == DocsAt(m, rows) - retired.Keys + DocsAt(a, added)
  {
    assert Exact(a, added);
    hide DocsAt, Replaced, Replaces, Exact;
    var left := DocsAt(m - retired.Keys + a, Replaced(rows, retired, added));
    var base, over := DocsAt(m, rows), DocsAt(a, added);
    forall k ensures Get(left, k) == if k in over then Get(over, k) else if k in retired.Keys then None
        else Get(base, k) {
      ReplacedDocAt(m, rows, retired, a, added, k);
      DocsAtKey(a, added, k);
    }
    MergedDocs(left, base, retired.Keys, over);
  }

  lemma MergedDocs(left: Docs, base: Docs, out: set<PrimaryKey>, over: Docs)
    requires forall k :: Get(left, k) == if k in over then Get(over, k) else if k in out then None else Get(base, k)
    ensures left == base - out + over
  {
    var right := base - out + over;
    forall k ensures Get(left, k) == Get(right, k) {
    }
    SameDocs(left, right);
  }

  lemma RetiredExact(m: KeyMap, rows: RowSet, retired: KeyMap, a: KeyMap, added: RowSet)
    requires Replaces(m, rows, retired, a, added)
    ensures Exact(retired, rows - (rows.Keys - retired.Values)) && retired.Values <= rows.Keys
  {
    var gone := rows - (rows.Keys - retired.Values);
    forall r | r in gone ensures KeyAt(gone, r) in retired && retired[KeyAt(gone, r)] == r {
      KeptRow(m, rows, retired, a, added, KeyAt(rows, r));
    }
    forall k | k in retired ensures retired[k] in gone && KeyAt(gone, retired[k]) == k {
      assert retired[k] in retired.Values;
    }
  }

  /** As many rows go as keys retire, as many come as keys are written. */
  lemma ReplacedCount(m: KeyMap, rows: RowSet, retired: KeyMap, a: KeyMap, added: RowSet)
    requires Replaces(m, rows, retired, a, added)
    ensures |Replaced(rows, retired, added)| == |rows| - |retired| + |a|
    ensures |retired.Values| == |retired| && retired.Values <= rows.Keys
  {
    var gone := rows - (rows.Keys - retired.Values);
    assert Exact(a, added) && added.Keys !! rows.Keys;
    RetiredExact(m, rows, retired, a, added);
    hide Exact, Replaces;
    KeyCount(retired, gone);
    KeyCount(a, added);
    OnlyKeys(rows, retired.Values);
    SetCount(rows.Keys, retired.Values, added.Keys);
    ReplacedRowIds(rows, retired, added);
  }

  lemma OnlyKeys(rows: RowSet, ids: set<RowId>)
    requires ids <= rows.Keys
    ensures (rows - (rows.Keys - ids)).Keys == ids
  {
  }

  lemma ReplacedRowIds(rows: RowSet, retired: KeyMap, added: RowSet)
    ensures Replaced(rows, retired, added).Keys == rows.Keys - retired.Values + added.Keys
  {
  }

  lemma SetCount<T>(before: set<T>, out: set<T>, more: set<T>)
    requires out <= before && more !! before
    ensures |before - out + more| == |before| - |out| + |more|
  {
    assert before == (before - out) + out;
  }
}
