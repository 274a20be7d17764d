/** Splits with delete bitmaps: what a commit does to them
    (step 8 of `commit_locked` in crates/loams-collection/src/target.rs). */
module Splits {
  import opened Prelude
  import opened PrimaryKeys
  import opened RowLocator

  type Path = string

  /** One split of a manifest; `keys` are the primary keys its docs store, `deleted` is the content of
      its delete bitmap. */
  datatype SplitRef = SplitRef(
    path: Path, docCount: nat, deletedCount: nat, ranges: seq<Range>, bitmap: Option<Path>,
    keys: seq<PrimaryKey>, deleted: set<nat>)

  function Rows(s: SplitRef): set<nat> {
    set d | 0 <= d < |RowIds(s.ranges)| :: RowIds(s.ranges)[d]
  }

  /** The rows of the docs that are not deleted. */
  function LiveRows(s: SplitRef): set<nat> {
    set d | 0 <= d < |RowIds(s.ranges)| && d !in s.deleted :: RowIds(s.ranges)[d]
  }

  ghost predicate SplitOk(s: SplitRef) {
    && U64Ranges(s.ranges) && RangesOk(s.ranges, s.docCount) && s.docCount <= U32_MAX
    && (forall d :: d in s.deleted ==> 0 <= d < s.docCount)
    && |s.deleted| == s.deletedCount < s.docCount && |s.keys| == s.docCount
  }

  /** Every split is well formed and no row is in two of them. */
  ghost predicate SplitsOk(splits: seq<SplitRef>) {
    && (forall i :: 0 <= i < |splits| ==> SplitOk(splits[i]))
    && (forall i, j :: 0 <= i < j < |splits| ==> Rows(splits[i]) !! Rows(splits[j]))
  }

  /** The rows of every doc, deleted or not. */
  function AllRows(splits: seq<SplitRef>): (r: set<nat>)
  {
    if splits == [] then {} else AllRows(splits[..|splits| - 1]) + Rows(splits[|splits| - 1])
  }

  /** The rows of every live doc. */
  function Live(splits: seq<SplitRef>): (r: set<nat>)
  {
    if splits == [] then {} else Live(splits[..|splits| - 1]) + LiveRows(splits[|splits| - 1])
  }

  function LiveCount(splits: seq<SplitRef>): (n: int)
  {
    if splits == [] then 0
    else LiveCount(splits[..|splits| - 1]) + splits[|splits| - 1].docCount - splits[|splits| - 1].deletedCount
  }

  /** The docs of `s` whose rows are in `rows`. */
  function Hits(s: SplitRef, rows: set<nat>): set<nat> {
    set d | 0 <= d < |RowIds(s.ranges)| && RowIds(s.ranges)[d] in rows
  }

  /** `s` with the docs `hits` deleted too, its new bitmap at `bitmap`. */
  function Marked(s: SplitRef, hits: set<nat>, bitmap: Path): SplitRef {
    s.(deleted := s.deleted + hits, deletedCount := |s.deleted + hits|, bitmap := Some(bitmap))
  }

  /** What deleting `rows` leaves of one split: it gets a new bitmap if one of its docs goes, and is
      dropped if all of its docs are gone. */
  function AfterOne(s: SplitRef, rows: set<nat>, bitmap: Path): seq<SplitRef> {
    var hits := Hits(s, rows);
    if hits == {} then [s]
    else if |s.deleted + hits| >= s.docCount then []
    else [Marked(s, hits, bitmap)]
  }

  /** The splits after `rows` are deleted. */
  function AfterDeletes(splits: seq<SplitRef>, rows: set<nat>, bitmaps: nat -> Path): (r: seq<SplitRef>)
  {
    if splits == [] then []
    else
      var n := |splits| - 1;
      AfterDeletes(splits[..n], rows, bitmaps) + AfterOne(splits[n], rows, bitmaps(n))
  }

  // ---- Row ids of a well-formed split ----

  /** The row ids of sorted, disjoint ranges ascend. */
  lemma {:induction false} RowIdsAscend(ranges: seq<Range>)
    requires RangesOk(ranges, |RowIds(ranges)|)
    ensures Ascending(RowIds(ranges))
    ensures forall d :: 0 <= d < |RowIds(ranges)| ==> RowIds(ranges)[d] < ranges[|ranges| - 1].end
  {
    if ranges != [] {
      var n := |ranges| - 1;
      var front := ranges[..n];
      RowIdsAscend(front);
      forall d | 0 <= d < |RowIds(front)| ensures RowIds(front)[d] < ranges[n].start {
        assert front[|front| - 1].end <= ranges[n].start;
      }
    }
  }

  lemma RowsDistinct(s: SplitRef, d: nat, e: nat)
    requires SplitOk(s) && d < s.docCount && e < s.docCount
    ensures RowIds(s.ranges)[d] == RowIds(s.ranges)[e] ==> d == e
  {
    RowIdsAscend(s.ranges);
  }

  /** Distinct docs have distinct rows, so they are as many. */
  lemma {:induction false} ImageSize(ids: seq<nat>, docs: set<nat>)
    requires Ascending(ids) && forall d :: d in docs ==> 0 <= d < |ids|
    ensures |set d | d in docs :: ids[d]| == |docs|
    decreases |docs|
  {
    var image := set d | d in docs :: ids[d];
    if docs != {} {
      var d :| d in docs;
      var rest := docs - {d};
      ImageSize(ids, rest);
      var others := set e | e in rest :: ids[e];
      assert ids[d] !in others;
      assert image == others + {ids[d]};
    }
  }

  /** The doc ids below `n`. */
  function DocIds(n: nat): (r: set<nat>)
  {
    if n == 0 then {} else DocIds(n - 1) + {n - 1}
  }

  lemma {:induction false} DocIdsSize(n: nat)
    ensures |DocIds(n)| == n
    ensures forall d :: d in DocIds(n) <==> 0 <= d < n
  {
    if n > 0 {
      DocIdsSize(n - 1);
    }
  }

  lemma LiveRowsSize(s: SplitRef)
    requires SplitOk(s)
    ensures |LiveRows(s)| == s.docCount - s.deletedCount
  {
    var ids := RowIds(s.ranges);
    RowIdsAscend(s.ranges);
    var all := DocIds(s.docCount);
    DocIdsSize(s.docCount);
    var live := all - s.deleted;
    assert s.deleted <= all;
    assert |live| == s.docCount - s.deletedCount;
    ImageSize(ids, live);
    assert LiveRows(s) == set d | d in live :: ids[d];
  }

  // ---- Whole lists of splits ----

  lemma {:induction false} LiveIsSomewhere(splits: seq<SplitRef>, row: nat)
    ensures row in Live(splits) <==> exists i :: 0 <= i < |splits| && row in LiveRows(splits[i])
  {
    if splits != [] {
      var n := |splits| - 1;
      LiveIsSomewhere(splits[..n], row);
      if i :| 0 <= i < |splits| && row in LiveRows(splits[i]) {
        if i < n { assert splits[..n][i] == splits[i]; }
      }
      if i :| 0 <= i < n && row in LiveRows(splits[..n][i]) {
        assert splits[..n][i] == splits[i];
      }
    }
  }

  lemma FrontOk(splits: seq<SplitRef>)
    requires SplitsOk(splits) && splits != []
    ensures SplitsOk(splits[..|splits| - 1])
    ensures Live(splits[..|splits| - 1]) !! Rows(splits[|splits| - 1])
  {
    hide SplitOk, Rows, LiveRows, Live;
    var n := |splits| - 1;
    var front := splits[..n];
    forall row | row in Live(front) ensures row !in Rows(splits[n]) {
      LiveIsSomewhere(front, row);
      var i :| 0 <= i < n && row in LiveRows(front[i]);
      LiveInRows(front[i]);
      assert front[i] == splits[i];
    }
  }

  lemma LiveInRows(s: SplitRef)
    ensures LiveRows(s) <= Rows(s)
  {
  }

  /** The counts add up to the live docs. */
  lemma {:induction false} LiveSize(splits: seq<SplitRef>)
    requires SplitsOk(splits)
    ensures |Live(splits)| == LiveCount(splits)
  {
    if splits != [] {
      hide SplitOk, Rows, LiveRows;
      var n := |splits| - 1;
      FrontOk(splits);
      LiveSize(splits[..n]);
      LiveRowsSize(splits[n]);
      LiveInRows(splits[n]);
      assert Live(splits[..n]) !! LiveRows(splits[n]);
    }
  }

  // ---- Deleting rows ----

  /** Deleting live rows of a split hits docs that were not deleted before. */
  lemma HitsNotYetDeleted(s: SplitRef, rows: set<nat>)
    requires SplitOk(s) && rows * Rows(s) <= LiveRows(s)
    ensures Hits(s, rows) !! s.deleted
  {
    var ids := RowIds(s.ranges);
    forall d | d in Hits(s, rows) ensures d !in s.deleted {
      assert ids[d] in rows * Rows(s);
      var e :| 0 <= e < |ids| && e !in s.deleted && ids[e] == ids[d];
      RowsDistinct(s, d, e);
    }
  }

  /** As many docs are hit as rows of the split are deleted. */
  lemma HitCount(s: SplitRef, rows: set<nat>)
    requires SplitOk(s)
    ensures |Hits(s, rows)| == |rows * Rows(s)|
  {
    var ids := RowIds(s.ranges);
    RowIdsAscend(s.ranges);
    ImageSize(ids, Hits(s, rows));
    assert rows * Rows(s) == set d | d in Hits(s, rows) :: ids[d];
  }

  lemma MarkedLive(s: SplitRef, rows: set<nat>, bitmap: Path)
    requires SplitOk(s)
    ensures LiveRows(Marked(s, Hits(s, rows), bitmap)) == LiveRows(s) - rows
  {
  }

  lemma MarkedOk(s: SplitRef, rows: set<nat>, bitmap: Path)
    requires SplitOk(s) && rows * Rows(s) <= LiveRows(s)
    ensures var hits := Hits(s, rows);
            && |s.deleted + hits| == s.deletedCount + |rows * Rows(s)|
            && (|s.deleted + hits| < s.docCount ==> SplitOk(Marked(s, hits, bitmap)))
            && LiveRows(Marked(s, hits, bitmap)) == LiveRows(s) - rows
  {
    hide Hits, Rows, LiveRows, RowIds, RangesOk, U64Ranges;
    HitsNotYetDeleted(s, rows);
    HitCount(s, rows);
    HitsInSplit(s, rows);
    MarkedLive(s, rows, bitmap);
  }

  lemma AfterOneOk(s: SplitRef, rows: set<nat>, bitmap: Path)
    requires SplitOk(s) && rows * Rows(s) <= LiveRows(s)
    ensures var after := AfterOne(s, rows, bitmap);
            && (forall i :: 0 <= i < |after| ==> SplitOk(after[i]) && Rows(after[i]) == Rows(s))
            && Live(after) == LiveRows(s) - rows
  {
    hide SplitOk, Rows, LiveRows, Hits, Live, LiveCount, RowIds;
    var hits := Hits(s, rows);
    MarkedOk(s, rows, bitmap);
    HitsInSplit(s, rows);
    SameRows(s, hits, bitmap);
    LiveOfFew(AfterOne(s, rows, bitmap));
    if hits != {} && |s.deleted + hits| >= s.docCount {
      MarkedEmpty(s, hits, bitmap);
    }
  }

  lemma HitsInSplit(s: SplitRef, rows: set<nat>)
    requires SplitOk(s)
    ensures forall d :: d in Hits(s, rows) ==> 0 <= d < s.docCount
  {
  }

  lemma SameRows(s: SplitRef, hits: set<nat>, bitmap: Path)
    ensures Rows(Marked(s, hits, bitmap)) == Rows(s)
    ensures hits == {} ==> LiveRows(Marked(s, hits, bitmap)) == LiveRows(s)
  {
    assert hits == {} ==> s.deleted + hits == s.deleted;
  }

  lemma LiveOfFew(splits: seq<SplitRef>)
    requires |splits| <= 1
    ensures Live(splits) == if splits == [] then {} else LiveRows(splits[0])
    ensures LiveCount(splits) == if splits == [] then 0 else splits[0].docCount - splits[0].deletedCount
  {
    if |splits| == 1 { assert splits[..0] == []; }
  }

  lemma MarkedEmpty(s: SplitRef, hits: set<nat>, bitmap: Path)
    requires SplitOk(s) && |s.deleted + hits| >= s.docCount
    requires forall d :: d in hits ==> 0 <= d < s.docCount
    ensures LiveRows(Marked(s, hits, bitmap)) == {} && |s.deleted + hits| == s.docCount
  {
    var gone, all := s.deleted + hits, DocIds(s.docCount);
    DocIdsSize(s.docCount);
    assert gone <= all;
    SubsetSize(gone, all);
    assert gone == all;
  }

  lemma {:induction false} SubsetSize<T>(a: set<T>, b: set<T>)
    requires a <= b
    ensures |a| <= |b| && (|a| == |b| ==> a == b)
  {
    assert b == a + (b - a);
  }

  // ---- Deleting rows of many splits ----

  lemma {:induction false} AllRowsIsSomewhere(splits: seq<SplitRef>, row: nat)
    ensures row in AllRows(splits) <==> exists i :: 0 <= i < |splits| && row in Rows(splits[i])
  {
    if splits != [] {
      hide Rows;
      var n := |splits| - 1;
      AllRowsIsSomewhere(splits[..n], row);
      if i :| 0 <= i < n && row in Rows(splits[..n][i]) {
        assert splits[..n][i] == splits[i];
      }
      if i :| 0 <= i < |splits| && row in Rows(splits[i]) {
        if i < n { assert splits[..n][i] == splits[i]; }
      }
    }
  }

  lemma LastApart(splits: seq<SplitRef>)
    requires SplitsOk(splits) && splits != []
    ensures AllRows(splits[..|splits| - 1]) !! Rows(splits[|splits| - 1])
  {
    hide SplitOk, Rows, AllRows;
    var n := |splits| - 1;
    forall row | row in AllRows(splits[..n]) ensures row !in Rows(splits[n]) {
      AllRowsIsSomewhere(splits[..n], row);
      var i :| 0 <= i < n && row in Rows(splits[..n][i]);
      assert splits[..n][i] == splits[i];
    }
  }

  /** A well-formed split of rows of its own can be added. */
  lemma SplitsAppend(splits: seq<SplitRef>, s: SplitRef)
    requires SplitsOk(splits) && SplitOk(s) && AllRows(splits) !! Rows(s)
    ensures SplitsOk(splits + [s])
    ensures Live(splits + [s]) == Live(splits) + LiveRows(s)
    ensures AllRows(splits + [s]) == AllRows(splits) + Rows(s)
    ensures LiveCount(splits + [s]) == LiveCount(splits) + s.docCount - s.deletedCount
  {
    hide SplitOk, Rows, LiveRows;
    var all := splits + [s];
    assert all[..|splits|] == splits;
    forall i | 0 <= i < |splits| ensures Rows(splits[i]) !! Rows(s) {
      forall row | row in Rows(splits[i]) ensures row !in Rows(s) {
        AllRowsIsSomewhere(splits, row);
      }
    }
  }

  lemma RowInOneSplit(splits: seq<SplitRef>, i: nat, j: nat, row: nat)
    requires SplitsOk(splits) && i < |splits| && j < |splits|
    requires row in Rows(splits[i]) && row in Rows(splits[j])
    ensures i == j
  {
    hide SplitOk, Rows;
  }

  /** Every row of `rows` that some split has is live there. */
  ghost predicate HitsLive(splits: seq<SplitRef>, rows: set<nat>) {
    forall i :: 0 <= i < |splits| ==> rows * Rows(splits[i]) <= LiveRows(splits[i])
  }

  lemma {:induction false} LiveHits(splits: seq<SplitRef>, rows: set<nat>)
    requires SplitsOk(splits) && rows <= Live(splits)
    ensures HitsLive(splits, rows)
  {
    hide SplitOk, Rows, LiveRows, Live;
    forall i, row | 0 <= i < |splits| && row in rows * Rows(splits[i]) ensures row in LiveRows(splits[i]) {
      LiveIsSomewhere(splits, row);
      var j :| 0 <= j < |splits| && row in LiveRows(splits[j]);
      LiveInRows(splits[j]);
      RowInOneSplit(splits, i, j, row);
    }
  }

  lemma {:induction false} AfterDeletesOk(splits: seq<SplitRef>, rows: set<nat>, bitmaps: nat -> Path)
    requires SplitsOk(splits) && HitsLive(splits, rows)
    ensures var after := AfterDeletes(splits, rows, bitmaps);
            SplitsOk(after) && AllRows(after) <= AllRows(splits) && Live(after) == Live(splits) - rows
  {
    if splits != [] {
      hide *;
      var n := |splits| - 1;
      SplitsStep(splits);
      HitsLiveStep(splits, rows);
      AfterDeletesStep(splits, rows, bitmaps);
      AfterDeletesOk(splits[..n], rows, bitmaps);
      AfterOneOk(splits[n], rows, bitmaps(n));
      LiveOfOne(splits[n], rows, bitmaps(n));
      OneMoreSplit(AfterDeletes(splits[..n], rows, bitmaps), AfterOne(splits[n], rows, bitmaps(n)));
    }
  }

  lemma HitsLiveStep(splits: seq<SplitRef>, rows: set<nat>)
    requires HitsLive(splits, rows) && splits != []
    ensures HitsLive(splits[..|splits| - 1], rows)
    ensures rows * Rows(splits[|splits| - 1]) <= LiveRows(splits[|splits| - 1])
  {
  }

  lemma OneMoreSplit(done: seq<SplitRef>, one: seq<SplitRef>)
    requires SplitsOk(done) && |one| <= 1
    requires one != [] ==> SplitOk(one[0]) && AllRows(done) !! Rows(one[0])
    ensures SplitsOk(done + one)
    ensures Live(done + one) == Live(done) + if one == [] then {} else LiveRows(one[0])
    ensures AllRows(done + one) == AllRows(done) + if one == [] then {} else Rows(one[0])
  {
    hide *;
    if one == [] {
      assert done + one == done;
    } else {
      SplitsAppend(done, one[0]);
      assert done + one == done + [one[0]];
    }
  }

  lemma AfterDeletesStep(splits: seq<SplitRef>, rows: set<nat>, bitmaps: nat -> Path)
    requires splits != []
    ensures var n := |splits| - 1;
            AfterDeletes(splits, rows, bitmaps)
            == AfterDeletes(splits[..n], rows, bitmaps) + AfterOne(splits[n], rows, bitmaps(n))
  {
  }

  lemma SplitsStep(splits: seq<SplitRef>)
    requires SplitsOk(splits) && splits != []
    ensures var front, last := splits[..|splits| - 1], splits[|splits| - 1];
            && SplitsOk(front) && SplitOk(last)
            && AllRows(front) !! Rows(last) && Live(front) !! Rows(last)
            && AllRows(splits) == AllRows(front) + Rows(last)
            && Live(splits) == Live(front) + LiveRows(last) && LiveRows(last) <= Rows(last)
  {
    hide SplitOk, Rows, LiveRows;
    FrontOk(splits);
    LastApart(splits);
    LiveInRows(splits[|splits| - 1]);
  }

  lemma LiveOfOne(s: SplitRef, rows: set<nat>, bitmap: Path)
    ensures var after := AfterOne(s, rows, bitmap);
            |after| <= 1 && Live(after) == if after == [] then {} else LiveRows(after[0])
  {
    hide Hits, LiveRows, Live;
    LiveOfFew(AfterOne(s, rows, bitmap));
  }

  /** Row `row` is doc `d` of split `s`, and live. */
  predicate LiveDoc(splits: seq<SplitRef>, s: nat, d: nat, row: nat) {
    Holds(RangesOf(splits), s, d, row) && d !in splits[s].deleted
  }

  /** A live row is exactly one live doc. */
  lemma OneLiveDoc(splits: seq<SplitRef>, row: nat)
    requires SplitsOk(splits)
    ensures row in Live(splits) <==> exists s: nat, d: nat :: LiveDoc(splits, s, d, row)
    ensures forall s: nat, d: nat, t: nat, e: nat ::
              LiveDoc(splits, s, d, row) && LiveDoc(splits, t, e, row) ==> s == t && d == e
  {
    SplitsAcceptable(splits);
    LiveIsSomewhere(splits, row);
    hide SplitsOk, Live, Acceptable;
    if i :| 0 <= i < |splits| && row in LiveRows(splits[i]) {
      var d :| 0 <= d < |RowIds(splits[i].ranges)| && d !in splits[i].deleted && RowIds(splits[i].ranges)[d] == row;
      assert LiveDoc(splits, i, d, row);
    }
    if s: nat, d: nat :| LiveDoc(splits, s, d, row) {
      assert row in LiveRows(splits[s]);
    }
    forall s: nat, d: nat, t: nat, e: nat | LiveDoc(splits, s, d, row) && LiveDoc(splits, t, e, row)
      ensures s == t && d == e
    {
      OneHolder(RangesOf(splits), s, d, t, e, row);
    }
  }

  lemma OneHolder(ranges: seq<seq<Range>>, s: nat, d: nat, t: nat, e: nat, row: nat)
    requires Acceptable(ranges) && Holds(ranges, s, d, row) && Holds(ranges, t, e, row)
    ensures s == t && d == e
  {
  }

  /** Deleting live rows leaves well-formed splits without exactly those rows, counted right. */
  lemma DeletesLand(splits: seq<SplitRef>, rows: set<nat>, bitmaps: nat -> Path)
    requires SplitsOk(splits) && rows <= Live(splits)
    ensures var after := AfterDeletes(splits, rows, bitmaps);
            && SplitsOk(after) && AllRows(after) <= AllRows(splits)
            && Live(after) == Live(splits) - rows
            && LiveCount(after) == LiveCount(splits) - |rows|
  {
    hide SplitsOk, Live, LiveCount, AfterDeletes, AllRows;
    LiveHits(splits, rows);
    AfterDeletesOk(splits, rows, bitmaps);
    LiveSize(splits);
    LiveSize(AfterDeletes(splits, rows, bitmaps));
    assert Live(splits) == (Live(splits) - rows) + rows;
  }

  lemma NoHits(s: SplitRef, bitmap: Path)
    ensures AfterOne(s, {}, bitmap) == [s]
  {
    assert Hits(s, {}) == {};
  }

  lemma {:induction false} NoDeletes(splits: seq<SplitRef>, bitmaps: nat -> Path)
    ensures AfterDeletes(splits, {}, bitmaps) == splits
  {
    if splits != [] {
      var n := |splits| - 1;
      NoDeletes(splits[..n], bitmaps);
      AfterDeletesStep(splits, {}, bitmaps);
      NoHits(splits[n], bitmaps(n));
      hide *;
      assert splits == splits[..n] + [splits[n]];
    }
  }

  // ---- The split of the new rows ----

  lemma {:induction false} HasMax(s: set<nat>) returns (m: nat)
    requires s != {}
    ensures m in s && forall x :: x in s ==> x <= m
    decreases |s|
  {
    m :| m in s;
    if s != {m} {
      var rest := s - {m};
      assert s == rest + {m};
      var n := HasMax(rest);
      if n > m { m := n; }
    }
  }

  /** The elements of `s`, ascending. */
  ghost function Sorted(s: set<nat>): (ids: seq<nat>)
    ensures |ids| == |s|
  {
    if s == {} then []
    else
      assert exists m :: m in s && forall x :: x in s ==> x <= m by { var m := HasMax(s); }
      var m :| m in s && forall x :: x in s ==> x <= m;
      Sorted(s - {m}) + [m]
  }

  lemma SortedStep(s: set<nat>) returns (m: nat)
    requires s != {}
    ensures m in s && (forall x :: x in s ==> x <= m) && Sorted(s) == Sorted(s - {m}) + [m]
  {
    m := Sorted(s)[|s| - 1];
  }

  function Elements<T>(s: seq<T>): set<T> {
    set x | x in s
  }

  lemma {:induction false} SortedAscends(s: set<nat>)
    ensures Ascending(Sorted(s)) && Elements(Sorted(s)) == s
  {
    if s == {} {
      NoElements<nat>([]);
    } else {
      hide *;
      var m := SortedStep(s);
      SortedAscends(s - {m});
      AscendingMore(Sorted(s - {m}), s, m);
    }
  }

  lemma AscendingMore(front: seq<nat>, s: set<nat>, m: nat)
    requires Ascending(front) && Elements(front) == s - {m} && m in s && forall x :: x in s ==> x <= m
    ensures Ascending(front + [m]) && Elements(front + [m]) == s
  {
    forall i | 0 <= i < |front| ensures front[i] < m {
      assert front[i] in Elements(front);
    }
    ElementsStep(front, m);
  }

  lemma ElementsStep<T>(s: seq<T>, x: T)
    ensures Elements(s + [x]) == Elements(s) + {x}
  {
  }

  lemma NoElements<T>(s: seq<T>)
    ensures Elements(s) == {} <==> s == []
  {
    if s != [] { assert s[0] in Elements(s); }
  }

  lemma LastAbove(a: seq<nat>)
    requires Ascending(a) && a != []
    ensures var m := a[|a| - 1];
            && m in Elements(a) && Elements(a[..|a| - 1]) == Elements(a) - {m}
            && (forall x :: x in Elements(a) ==> x <= m)
  {
    var front, m := a[..|a| - 1], a[|a| - 1];
    assert a == front + [m];
    ElementsStep(front, m);
    assert m !in front;
  }

  /** An ascending list is determined by its elements. */
  lemma {:induction false} AscendingUnique(a: seq<nat>, b: seq<nat>)
    requires Ascending(a) && Ascending(b) && Elements(a) == Elements(b)
    ensures a == b
    decreases |a|
  {
    NoElements(a);
    NoElements(b);
    if a != [] {
      LastAbove(a);
      LastAbove(b);
      AscendingUnique(a[..|a| - 1], b[..|b| - 1]);
    }
  }

  /** A split whose docs are the rows `ids` of the keys `keys`, none of them deleted. */
  function NewSplit(path: Path, ids: seq<nat>, keys: seq<PrimaryKey>): SplitRef {
    SplitRef(path, |ids|, 0, Runs(ids), None, keys, {})
  }

  lemma NewSplitOk(path: Path, ids: seq<nat>, keys: seq<PrimaryKey>)
    requires Ascending(ids) && 0 < |ids| <= U32_MAX && forall i :: 0 <= i < |ids| ==> ids[i] < U64_MAX
    requires |keys| == |ids|
    ensures SplitOk(NewSplit(path, ids, keys)) && RowIds(NewSplit(path, ids, keys).ranges) == ids
    ensures Rows(NewSplit(path, ids, keys)) == LiveRows(NewSplit(path, ids, keys)) == Elements(ids)
  {
    RunsRoundTrip(ids);
    RunsFit(Runs(ids), ids);
  }

  lemma RunsFit(ranges: seq<Range>, ids: seq<nat>)
    requires Enumerates(ranges, ids) && EndsAfter(ranges, ids) && ids != []
    requires forall i :: 0 <= i < |ids| ==> ids[i] < U64_MAX
    ensures U64Ranges(ranges)
  {
    hide RowIds;
    var n := |ranges| - 1;
    forall i | 0 <= i < |ranges| ensures U64Range(ranges[i]) {
      if i < n { assert ranges[i].end <= ranges[n].start; }
    }
  }

  // ---- Step 8 of a commit ----

  function RangesOf(splits: seq<SplitRef>): (r: seq<seq<Range>>)
    ensures |r| == |splits|
    ensures forall i :: 0 <= i < |splits| ==> r[i] == splits[i].ranges
  {
    seq(|splits|, i requires 0 <= i < |splits| => splits[i].ranges)
  }

  /** The row locator accepts well-formed splits. */
  lemma SplitsAcceptable(splits: seq<SplitRef>)
    requires SplitsOk(splits)
    ensures Acceptable(RangesOf(splits))
    ensures forall i :: 0 <= i < |splits| ==> U64Ranges(splits[i].ranges)
  {
    var ranges := RangesOf(splits);
    forall s: nat, d: nat, t: nat, e: nat, r: nat | Holds(ranges, s, d, r) && Holds(ranges, t, e, r)
      ensures s == t && d == e
    {
      HolderRow(splits, s, d, r);
      HolderRow(splits, t, e, r);
      RowInOneSplit(splits, s, t, r);
      RowsDistinct(splits[s], d, e);
    }
  }

  lemma HolderRow(splits: seq<SplitRef>, s: nat, d: nat, r: nat)
    requires Holds(RangesOf(splits), s, d, r)
    ensures r in Rows(splits[s])
  {
  }

  /** `docs` maps every split with docs in `rows` to those docs. */
  ghost predicate HitsBySplit(splits: seq<SplitRef>, rows: set<nat>, docs: map<nat, set<nat>>) {
    && (forall s :: 0 <= s < |splits| ==> Hits(splits[s], rows) == if s in docs then docs[s] else {})
    && (forall s :: s in docs ==> docs[s] != {})
  }

  lemma OneMoreRow(splits: seq<SplitRef>, rows: set<nat>, docs: map<nat, set<nat>>, row: nat, split: nat, doc: nat)
    requires HitsBySplit(splits, rows, docs)
    requires forall t: nat, d: nat :: Some((split, doc)) == Some((t, d)) <==> Holds(RangesOf(splits), t, d, row)
    ensures HitsBySplit(splits, rows + {row}, docs[split := (if split in docs then docs[split] else {}) + {doc}])
  {
    hide Hits, Holds;
    forall s | 0 <= s < |splits| {
      OneMoreHit(splits, s, rows, row, split, doc);
    }
  }

  /** The docs to delete, by split; `Corrupt` if some row is in no split. */
  method LocateDeleted(locator: Locator, splits: seq<SplitRef>, rows: set<nat>)
    returns (r: Result<map<nat, set<nat>>, Corrupt>)
    requires LocatorOf(locator, RangesOf(splits))
    ensures r.Ok? <==> rows <= AllRows(splits)
    ensures r.Ok? ==> HitsBySplit(splits, rows, r.value)
  {
    var docs: map<nat, set<nat>> := map[];
    var todo := rows;
    assert rows - todo == {};
    while todo != {}
      invariant todo <= rows && rows - todo <= AllRows(splits)
      invariant HitsBySplit(splits, rows - todo, docs)
      decreases todo
    {
      hide Hits, AllRows, Rows, LocatorOf, HitsBySplit;
      var row :| row in todo;
      var place := Locate(locator, RangesOf(splits), row);
      if place.None? {
        NowhereLocated(splits, row);
        return Err(Corrupt);
      }
      var (split, doc) := place.value;
      HolderRow(splits, split, doc, row);
      AllRowsIsSomewhere(splits, row);
      OneMoreRow(splits, rows - todo, docs, row, split, doc);
      assert rows - todo + {row} == rows - (todo - {row});
      docs := docs[split := (if split in docs then docs[split] else {}) + {doc}];
      todo := todo - {row};
    }
    assert rows - todo == rows;
    r := Ok(docs);
  }

  lemma NowhereLocated(splits: seq<SplitRef>, row: nat)
    requires forall s: nat, d: nat :: !Holds(RangesOf(splits), s, d, row)
    ensures row !in AllRows(splits)
  {
    AllRowsIsSomewhere(splits, row);
    if i :| 0 <= i < |splits| && row in Rows(splits[i]) {
      var d: nat :| d < |RowIds(splits[i].ranges)| && RowIds(splits[i].ranges)[d] == row;
      assert Holds(RangesOf(splits), i, d, row);
    }
  }

  lemma OneMoreHit(splits: seq<SplitRef>, s: nat, rows: set<nat>, row: nat, split: nat, doc: nat)
    requires s < |splits|
    requires forall t: nat, d: nat :: Some((split, doc)) == Some((t, d)) <==> Holds(RangesOf(splits), t, d, row)
    ensures Hits(splits[s], rows + {row}) == Hits(splits[s], rows) + if s == split then {doc} else {}
  {
    var ids := RowIds(splits[s].ranges);
    assert Holds(RangesOf(splits), split, doc, row);
    forall d: nat | d < |ids| ensures ids[d] == row <==> s == split && d == doc {
      assert ids[d] == row <==> Holds(RangesOf(splits), s, d, row);
    }
  }

  /** A split of 2^32 docs or more cannot get a bitmap. */
  ghost predicate TooLarge(s: SplitRef, rows: set<nat>) {
    Hits(s, rows) != {} && |s.deleted + Hits(s, rows)| < s.docCount && s.docCount > U32_MAX
  }

  /** Every row is in some split, and every split that gets a bitmap can have one. */
  ghost predicate CanDelete(splits: seq<SplitRef>, rows: set<nat>) {
    rows <= AllRows(splits) && forall i :: 0 <= i < |splits| ==> !TooLarge(splits[i], rows)
  }

  /** Split `s` can lose `rows`, and `left` is what that leaves of it. */
  ghost predicate MarkedAs(s: SplitRef, rows: set<nat>, bitmap: Path, left: seq<SplitRef>) {
    !TooLarge(s, rows) && AfterOne(s, rows, bitmap) == left
  }

  /** The loop that marks the docs in the bitmaps of their splits. */
  method MarkSplits(splits: seq<SplitRef>, ghost rows: set<nat>, docs: map<nat, set<nat>>, bitmaps: nat -> Path)
    returns (marked: seq<SplitRef>, emptied: set<nat>, ok: bool)
    requires HitsBySplit(splits, rows, docs)
    ensures ok <==> forall i :: 0 <= i < |splits| ==> !TooLarge(splits[i], rows)
    ensures |marked| == |splits|
    ensures ok ==> forall i :: 0 <= i < |splits| ==>
              MarkedAs(splits[i], rows, bitmaps(i), if i in emptied then [] else [marked[i]])
  {
    hide Hits;
    marked, emptied, ok := splits, {}, true;
    for i := 0 to |splits|
      invariant |marked| == |splits| && marked[i..] == splits[i..]
      invariant forall j :: j in emptied ==> j < i
      invariant forall j :: 0 <= j < i ==>
                  MarkedAs(splits[j], rows, bitmaps(j), if j in emptied then [] else [marked[j]])
    {
      assert marked[i] == splits[i];
      if i in docs {
        var deleted := splits[i].deleted + docs[i];
        var count := |deleted|;
        if count >= splits[i].docCount {
          emptied := emptied + {i};
        } else if splits[i].docCount > U32_MAX {
          assert TooLarge(splits[i], rows);
          ok := false;
          return;
        } else {
          marked := marked[i := splits[i].(deleted := deleted, deletedCount := count, bitmap := Some(bitmaps(i)))];
        }
      }
      assert MarkedAs(splits[i], rows, bitmaps(i), if i in emptied then [] else [marked[i]]);
    }
  }

  /** Step 8: the parent's splits without `rows`. */
  method DeleteRows(locator: Locator, splits: seq<SplitRef>, rows: set<nat>, bitmaps: nat -> Path)
    returns (r: Result<seq<SplitRef>, Corrupt>)
    requires LocatorOf(locator, RangesOf(splits))
    ensures r.Ok? <==> CanDelete(splits, rows)
    ensures r.Ok? ==> r.value == AfterDeletes(splits, rows, bitmaps)
  {
    hide Hits, AllRows, Rows, LocatorOf, TooLarge, AfterOne;
    var located := LocateDeleted(locator, splits, rows);
    if located.Err? {
      return Err(Corrupt);
    }
    var marked, emptied, ok := MarkSplits(splits, rows, located.value, bitmaps);
    if !ok {
      return Err(Corrupt);
    }
    var kept := [];
    for i := 0 to |splits|
      invariant kept == AfterDeletes(splits[..i], rows, bitmaps)
    {
      assert splits[..i + 1][..i] == splits[..i];
      assert MarkedAs(splits[i], rows, bitmaps(i), if i in emptied then [] else [marked[i]]);
      if i !in emptied {
        kept := kept + [marked[i]];
      }
    }
    assert splits[..|splits|] == splits;
    r := Ok(kept);
  }

  lemma OneRange(n: nat)
    ensures var ids := RowIds([Range(0, n)]); |ids| == n && forall d :: 0 <= d < n ==> ids[d] == d
  {
    var ranges := [Range(0, n)];
    assert ranges[..|ranges| - 1] == [];
    assert RowIds([]) == [];
    assert RowIds(ranges) == RowIds(ranges[..|ranges| - 1]) + Span(ranges[0]);
  }

  /** The row locator accepts a split of exactly 2^32 docs, but no delete of some of its docs, and not of
      all of them, can land. */
  lemma LargestSplitKeepsDocs(path: Path, keys: seq<PrimaryKey>, rows: set<nat>)
    requires rows != {} && |rows| <= U32_MAX && forall row :: row in rows ==> row <= U32_MAX
    ensures var s := SplitRef(path, U32_MAX + 1, 0, [Range(0, U32_MAX + 1)], None, keys, {});
            && U64Ranges(s.ranges) && Acceptable(RangesOf([s])) && rows <= AllRows([s])
            && !CanDelete([s], rows)
  {
    var s := SplitRef(path, U32_MAX + 1, 0, [Range(0, U32_MAX + 1)], None, keys, {});
    OneRange(U32_MAX + 1);
    hide RowIds;
    assert Hits(s, rows) == rows;
    assert s.deleted + rows == rows;
    assert TooLarge([s][0], rows);
    assert [s][..0] == [];
    assert AllRows([s]) == Rows(s);
  }

  /** Deleting all of its docs at once drops the split, and lands. */
  lemma LargestSplitGoesWhole(path: Path, keys: seq<PrimaryKey>, rows: set<nat>)
    requires |rows| == U32_MAX + 1 && forall row :: row in rows ==> row <= U32_MAX
    ensures var s := SplitRef(path, U32_MAX + 1, 0, [Range(0, U32_MAX + 1)], None, keys, {});
            CanDelete([s], rows)
  {
    var s := SplitRef(path, U32_MAX + 1, 0, [Range(0, U32_MAX + 1)], None, keys, {});
    OneRange(U32_MAX + 1);
    hide RowIds;
    assert Hits(s, rows) == rows;
    assert s.deleted + rows == rows;
    assert [s][..0] == [];
    assert AllRows([s]) == Rows(s);
  }

  /** On well-formed splits, deleting live rows never fails. */
  lemma DeletesAreLocated(splits: seq<SplitRef>, rows: set<nat>)
    requires SplitsOk(splits) && rows <= Live(splits)
    ensures CanDelete(splits, rows)
  {
    hide Rows, LiveRows, Live, AllRows;
    forall row | row in rows ensures row in AllRows(splits) {
      LiveIsSomewhere(splits, row);
      var i :| 0 <= i < |splits| && row in LiveRows(splits[i]);
      LiveInRows(splits[i]);
      AllRowsIsSomewhere(splits, row);
    }
  }
}
