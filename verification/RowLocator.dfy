/** Row-id ranges of splits and the row locator
    (crates/loams-collection/src/manifest.rs, `runs` of target.rs). */
module RowLocator {
  import opened Prelude
  import opened Sorting

  /** `start..end`, both `u64`. */
  datatype Range = Range(start: nat, end: nat)

  predicate U64Range(r: Range) {
    r.start <= U64_MAX && r.end <= U64_MAX
  }

  /** The row ids of one range, ascending. */
  function Span(r: Range): (ids: seq<nat>)
    ensures |ids| == if r.start < r.end then r.end - r.start else 0
  {
    if r.start < r.end then seq(r.end - r.start, i => r.start + i) else []
  }

  /** The row ids of a split in doc-id order: doc `d` is `RowIds(ranges)[d]`. */
  function RowIds(ranges: seq<Range>): (ids: seq<nat>)
  {
    if ranges == [] then [] else RowIds(ranges[..|ranges| - 1]) + Span(ranges[|ranges| - 1])
  }

  // ---- check_ranges ----

  /** Non-empty, sorted and disjoint, and covering `docCount` rows. */
  ghost predicate RangesOk(ranges: seq<Range>, docCount: nat) {
    && (forall i :: 0 <= i < |ranges| ==> ranges[i].start < ranges[i].end)
    && (forall i, j :: 0 <= i < j < |ranges| ==> ranges[i].end <= ranges[j].start)
    && |RowIds(ranges)| == docCount
  }

  method CheckRanges(ranges: seq<Range>, docCount: nat) returns (ok: bool)
    requires U64Ranges(ranges)
    ensures ok <==> RangesOk(ranges, docCount)
  {
    var total: nat := 0;
    var previousEnd: Option<nat> := None;
    for i := 0 to |ranges|
      invariant RangesOk(ranges[..i], total)
      invariant previousEnd == if i == 0 then None else Some(ranges[i - 1].end)
      invariant total <= if i == 0 then 0 else ranges[i - 1].end
    {
      var range := ranges[i];
      if range.start >= range.end {
        return false;
      }
      if previousEnd.Some? && range.start < previousEnd.value {
        return false;
      }
      previousEnd := Some(range.end);
      assert ranges[..i + 1][..i] == ranges[..i];
      total := SaturatingAdd(total, range.end - range.start);
    }
    assert ranges[..|ranges|] == ranges;
    ok := total == docCount;
  }

  // ---- runs ----

  /** `id + 1` in a `u64`. */
  function Successor(id: nat): nat {
    if id == U64_MAX then 0 else id + 1
  }

  /** The last run grown by `id`, or a new run. */
  function Extended(out: seq<Range>, id: nat): seq<Range> {
    if out != [] && out[|out| - 1].end == id
    then out[..|out| - 1] + [Range(out[|out| - 1].start, Successor(id))]
    else out + [Range(id, Successor(id))]
  }

  /** Maximal runs of consecutive ids, in order. */
  function Runs(ids: seq<nat>): (out: seq<Range>)
  {
    if ids == [] then [] else Extended(Runs(ids[..|ids| - 1]), ids[|ids| - 1])
  }

  method RunsOf(ids: seq<nat>) returns (out: seq<Range>)
    ensures out == Runs(ids)
  {
    out := [];
    for i := 0 to |ids|
      invariant out == Runs(ids[..i])
    {
      var id := ids[i];
      assert ids[..i + 1][..i] == ids[..i];
      if out != [] && out[|out| - 1].end == id {
        out := out[|out| - 1 := Range(out[|out| - 1].start, Successor(id))];
      } else {
        out := out + [Range(id, Successor(id))];
      }
    }
    assert ids[..|ids|] == ids;
  }

  ghost predicate Ascending(ids: seq<nat>) {
    forall i, j :: 0 <= i < j < |ids| ==> ids[i] < ids[j]
  }

  /** No two neighbouring ranges touch: the runs cannot be longer. */
  ghost predicate Maximal(ranges: seq<Range>) {
    forall i :: 0 < i < |ranges| ==> ranges[i - 1].end < ranges[i].start
  }

  /** `out` enumerates `ids` by maximal runs. */
  ghost predicate Enumerates(out: seq<Range>, ids: seq<nat>) {
    RowIds(out) == ids && RangesOk(out, |ids|) && Maximal(out)
  }

  /** The last run ends after the last id. */
  ghost predicate EndsAfter(out: seq<Range>, ids: seq<nat>) {
    && (ids == [] <==> out == [])
    && (ids != [] ==> out[|out| - 1].end == ids[|ids| - 1] + 1)
  }

  lemma RunGrows(out: seq<Range>, ids: seq<nat>, id: nat)
    requires Enumerates(out, ids) && out != [] && out[|out| - 1].end == id
    ensures Enumerates(out[..|out| - 1] + [Range(out[|out| - 1].start, id + 1)], ids + [id])
  {
    var n := |out| - 1;
    var grown := out[..n] + [Range(out[n].start, id + 1)];
    assert grown[..n] == out[..n];
    assert Span(grown[n]) == Span(out[n]) + [id];
  }

  lemma RunStarts(out: seq<Range>, ids: seq<nat>, id: nat)
    requires Enumerates(out, ids) && (out != [] ==> out[|out| - 1].end < id)
    ensures Enumerates(out + [Range(id, id + 1)], ids + [id])
  {
    var n, grown := |out|, out + [Range(id, id + 1)];
    assert grown[..n] == out && Span(grown[n]) == [id];
    forall i | 0 <= i < n ensures out[i].end <= id {
      assert i < n - 1 ==> out[i].end <= out[n - 1].start;
    }
  }

  lemma RunsExtend(out: seq<Range>, ids: seq<nat>, id: nat)
    requires Enumerates(out, ids) && EndsAfter(out, ids)
    requires id < U64_MAX && (ids != [] ==> ids[|ids| - 1] < id)
    ensures Enumerates(Extended(out, id), ids + [id]) && EndsAfter(Extended(out, id), ids + [id])
  {
    hide Enumerates;
    if out != [] && out[|out| - 1].end == id {
      RunGrows(out, ids, id);
    } else {
      RunStarts(out, ids, id);
    }
  }

  lemma {:induction false} RunsRoundTrip(ids: seq<nat>)
    requires Ascending(ids) && forall i :: 0 <= i < |ids| ==> ids[i] < U64_MAX
    ensures Enumerates(Runs(ids), ids) && EndsAfter(Runs(ids), ids)
  {
    hide Extended;
    if ids != [] {
      var front, id := ids[..|ids| - 1], ids[|ids| - 1];
      RunsRoundTrip(front);
      RunsExtend(Runs(front), front, id);
      assert ids == front + [id];
    }
  }

  /** The runs of ascending `u64` ids flatten back to them and pass `check_ranges` exactly when the
      largest id is not `u64::MAX`, whose successor does not fit. */
  lemma RunsExact(ids: seq<nat>)
    requires Ascending(ids) && forall i :: 0 <= i < |ids| ==> ids[i] <= U64_MAX
    ensures ids == [] || ids[|ids| - 1] != U64_MAX <==> Enumerates(Runs(ids), ids)
  {
    if ids == [] || ids[|ids| - 1] != U64_MAX {
      RunsRoundTrip(ids);
    } else {
      var out := Runs(ids);
      assert out[|out| - 1].end == 0;
      assert !RangesOk(out, |ids|);
    }
  }

  // ---- The locator ----

  /** One row-id range of a split; `docBase` is the doc id of its first row. */
  datatype Located = Located(start: nat, end: nat, split: nat, docBase: nat)

  datatype Locator = Locator(ranges: seq<Located>)

  predicate StartLe(a: Located, b: Located) {
    a.start <= b.start
  }

  /** Row `r` is doc `d` of split `s`. */
  predicate Holds(splits: seq<seq<Range>>, s: nat, d: nat, r: nat) {
    s < |splits| && d < |RowIds(splits[s])| && RowIds(splits[s])[d] == r
  }

  ghost predicate NonEmptyRanges(ranges: seq<Range>) {
    forall i :: 0 <= i < |ranges| ==> ranges[i].start < ranges[i].end
  }

  ghost predicate NonEmpty(splits: seq<seq<Range>>) {
    forall s :: 0 <= s < |splits| ==> NonEmptyRanges(splits[s])
  }

  ghost predicate U64Ranges(ranges: seq<Range>) {
    forall i :: 0 <= i < |ranges| ==> U64Range(ranges[i])
  }

  ghost predicate Fits(splits: seq<seq<Range>>) {
    forall s :: 0 <= s < |splits| ==> |RowIds(splits[s])| <= U32_MAX + 1
  }

  /** What `RowLocator::new` accepts: no empty range, at most 2^32 docs a split, no row twice. */
  ghost predicate Acceptable(splits: seq<seq<Range>>) {
    && NonEmpty(splits)
    && Fits(splits)
    && (forall s: nat, d: nat, t: nat, e: nat, r: nat ::
          Holds(splits, s, d, r) && Holds(splits, t, e, r) ==> s == t && d == e)
  }

  /** The ranges of split `s` with their doc ids. */
  function SplitEntries(ranges: seq<Range>, s: nat): (out: seq<Located>)
    ensures |out| == |ranges|
  {
    if ranges == [] then []
    else
      var front, last := ranges[..|ranges| - 1], ranges[|ranges| - 1];
      SplitEntries(front, s) + [Located(last.start, last.end, s, |RowIds(front)|)]
  }

  lemma {:induction false} SplitEntryAt(ranges: seq<Range>, s: nat, i: nat)
    requires i < |ranges|
    ensures SplitEntries(ranges, s)[i]
         == Located(ranges[i].start, ranges[i].end, s, |RowIds(ranges[..i])|)
  {
    var n := |ranges| - 1;
    if i < n {
      SplitEntryAt(ranges[..n], s, i);
      assert ranges[..n][..i] == ranges[..i];
    }
  }

  function Entries(splits: seq<seq<Range>>): (out: seq<Located>)
  {
    if splits == [] then []
    else Entries(splits[..|splits| - 1]) + SplitEntries(splits[|splits| - 1], |splits| - 1)
  }

  /** The entries of one split; `None` for an empty range or more than 2^32 docs. */
  method PushSplit(ranges: seq<Range>, s: nat) returns (out: Option<seq<Located>>)
    requires U64Ranges(ranges)
    ensures out.Some? <==> NonEmptyRanges(ranges) && |RowIds(ranges)| <= U32_MAX + 1
    ensures out.Some? ==> out.value == SplitEntries(ranges, s)
  {
    var entries: seq<Located> := [];
    var docBase: nat := 0;
    for i := 0 to |ranges|
      invariant docBase == |RowIds(ranges[..i])| <= U32_MAX + 1
      invariant entries == SplitEntries(ranges[..i], s)
      invariant forall k :: 0 <= k < i ==> ranges[k].start < ranges[k].end
    {
      var range := ranges[i];
      assert ranges[..i + 1][..i] == ranges[..i];
      if range.start >= range.end {
        return None;
      }
      var nextBase := SaturatingAdd(docBase, range.end - range.start);
      if docBase > U32_MAX || nextBase - 1 > U32_MAX {
        RowIdsGrow(ranges, i + 1);
        return None;
      }
      entries := entries + [Located(range.start, range.end, s, docBase)];
      docBase := nextBase;
    }
    assert ranges[..|ranges|] == ranges;
    out := Some(entries);
  }

  method PushAll(splits: seq<seq<Range>>) returns (out: Option<seq<Located>>)
    requires forall s :: 0 <= s < |splits| ==> U64Ranges(splits[s])
    ensures out.Some? <==> NonEmpty(splits) && Fits(splits)
    ensures out.Some? ==> out.value == Entries(splits)
  {
    hide RowIds, SplitEntries, NonEmptyRanges, U64Ranges;
    var ranges: seq<Located> := [];
    for s := 0 to |splits|
      invariant ranges == Entries(splits[..s])
      invariant forall t :: 0 <= t < s ==> NonEmptyRanges(splits[t]) && |RowIds(splits[t])| <= U32_MAX + 1
    {
      assert splits[..s + 1][..s] == splits[..s];
      var entries := PushSplit(splits[s], s);
      if entries.None? {
        return None;
      }
      ranges := ranges + entries.value;
    }
    assert splits[..|splits|] == splits;
    out := Some(ranges);
  }

  /** `RowLocator::new`. */
  method NewLocator(splits: seq<seq<Range>>) returns (r: Result<Locator, Corrupt>)
    requires forall s :: 0 <= s < |splits| ==> U64Ranges(splits[s])
    ensures r.Ok? <==> Acceptable(splits)
    ensures r.Ok? ==> LocatorOf(r.value, splits)
  {
    var entries := PushAll(splits);
    if entries.None? {
      return Err(Corrupt);
    }
    var ranges := Sort(StartLe, entries.value);
    SortSorts(StartLe, entries.value);
    for i := 0 to |ranges|
      invariant forall k :: 0 < k < i ==> ranges[k - 1].end <= ranges[k].start
    {
      if i > 0 && ranges[i].start < ranges[i - 1].end {
        OverlapRefused(splits, ranges, i);
        return Err(Corrupt);
      }
    }
    NoOverlapAccepted(splits, ranges);
    r := Ok(Locator(ranges));
  }

  lemma {:induction false} RowIdsGrow(ranges: seq<Range>, i: nat)
    requires i <= |ranges|
    ensures |RowIds(ranges[..i])| <= |RowIds(ranges)|
    decreases |ranges|
  {
    if i < |ranges| {
      RowIdsGrow(ranges[..|ranges| - 1], i);
      assert ranges[..|ranges| - 1][..i] == ranges[..i];
    } else {
      assert ranges[..i] == ranges;
    }
  }

  /** An entry is one range of one split. */
  lemma {:induction false} EntryOf(splits: seq<seq<Range>>, e: Located)
    ensures e in Entries(splits) <==>
            e.split < |splits| && e in SplitEntries(splits[e.split], e.split)
  {
    if splits != [] {
      var n := |splits| - 1;
      EntryOf(splits[..n], e);
      var last := SplitEntries(splits[n], n);
      forall i | 0 <= i < |last| ensures last[i].split == n { SplitEntryAt(splits[n], n, i); }
    }
  }

  lemma RowIdsStep(ranges: seq<Range>)
    requires ranges != []
    ensures RowIds(ranges) == RowIds(ranges[..|ranges| - 1]) + Span(ranges[|ranges| - 1])
  {
  }

  /** The rows of a range are the docs from its base on. */
  lemma {:induction false} RangeRows(ranges: seq<Range>, i: nat, k: nat)
    requires i < |ranges| && k < |Span(ranges[i])|
    ensures |RowIds(ranges[..i])| + k < |RowIds(ranges)|
    ensures RowIds(ranges)[|RowIds(ranges[..i])| + k] == ranges[i].start + k
    decreases |ranges|
  {
    hide RowIds;
    var n := |ranges| - 1;
    var front := ranges[..n];
    RowIdsStep(ranges);
    if i < n {
      RangeRows(front, i, k);
      assert front[..i] == ranges[..i];
    } else {
      assert Span(ranges[i])[k] == ranges[i].start + k;
    }
  }

  /** Every doc is in one of the ranges. */
  lemma {:induction false} RangeOfDoc(ranges: seq<Range>, d: nat) returns (i: nat)
    requires d < |RowIds(ranges)|
    ensures i < |ranges|
    ensures |RowIds(ranges[..i])| <= d < |RowIds(ranges[..i])| + |Span(ranges[i])|
    decreases |ranges|
  {
    var n := |ranges| - 1;
    if d < |RowIds(ranges[..n])| {
      i := RangeOfDoc(ranges[..n], d);
      assert ranges[..n][..i] == ranges[..i];
    } else {
      i := n;
    }
  }

  /** Doc `d` of split `s` is row `r` exactly when some entry covers `r` at that place. */
  ghost predicate Covers(e: Located, s: nat, d: nat, r: nat) {
    e.start <= r < e.end && e.split == s && d == e.docBase + (r - e.start)
  }

  lemma EntryIndex(splits: seq<seq<Range>>, e: Located) returns (i: nat)
    requires e in Entries(splits)
    ensures e.split < |splits| && i < |splits[e.split]|
    ensures var ranges := splits[e.split];
            e == Located(ranges[i].start, ranges[i].end, e.split, |RowIds(ranges[..i])|)
  {
    EntryOf(splits, e);
    i :| 0 <= i < |splits[e.split]| && SplitEntries(splits[e.split], e.split)[i] == e;
    SplitEntryAt(splits[e.split], e.split, i);
  }

  lemma EntryHolds(splits: seq<seq<Range>>, e: Located, r: nat)
    requires e in Entries(splits) && e.start <= r < e.end
    ensures Holds(splits, e.split, e.docBase + (r - e.start), r)
  {
    hide RowIds, Entries;
    var i := EntryIndex(splits, e);
    RangeRows(splits[e.split], i, r - e.start);
  }

  lemma HolderEntry(splits: seq<seq<Range>>, s: nat, d: nat, r: nat) returns (e: Located)
    requires Holds(splits, s, d, r)
    ensures e in Entries(splits) && Covers(e, s, d, r)
  {
    hide RowIds, Span, SplitEntries;
    var ranges := splits[s];
    var i := RangeOfDoc(ranges, d);
    e := SplitEntries(ranges, s)[i];
    SplitEntryAt(ranges, s, i);
    EntryOf(splits, e);
    RangeRows(ranges, i, d - |RowIds(ranges[..i])|);
  }

  lemma BasesOrdered(ranges: seq<Range>, i: nat, j: nat)
    requires i < j < |ranges|
    ensures |RowIds(ranges[..i])| + |Span(ranges[i])| <= |RowIds(ranges[..j])|
  {
    RowIdsGrow(ranges[..j], i + 1);
    assert ranges[..j][..i + 1] == ranges[..i + 1];
    assert ranges[..i + 1][..i] == ranges[..i];
  }

  /** Two entries that put a row at the same place are the same entry. */
  lemma PlaceDecidesEntry(splits: seq<seq<Range>>, a: Located, b: Located, r: nat)
    requires a in Entries(splits) && b in Entries(splits) && a.split < |splits|
    requires a.start <= r < a.end && b.start <= r < b.end
    requires a.split == b.split && a.docBase + (r - a.start) == b.docBase + (r - b.start)
    ensures a == b
  {
    var ranges := splits[a.split];
    var i := EntryIndex(splits, a);
    var j := EntryIndex(splits, b);
    if i < j { BasesOrdered(ranges, i, j); }
    if j < i { BasesOrdered(ranges, j, i); }
  }

  ghost predicate Distinct<T>(s: seq<T>) {
    forall i, j :: 0 <= i < j < |s| ==> s[i] != s[j]
  }

  /** Two entries at different places of the list are different, since no range is empty. */
  lemma {:induction false} EntriesDistinct(splits: seq<seq<Range>>)
    requires NonEmpty(splits)
    ensures Distinct(Entries(splits))
  {
    if splits != [] {
      var n := |splits| - 1;
      EntriesDistinct(splits[..n]);
      forall e | e in Entries(splits[..n]) ensures e.split < n { EntryOf(splits[..n], e); }
      var last := SplitEntries(splits[n], n);
      forall i | 0 <= i < |last| ensures last[i].split == n { SplitEntryAt(splits[n], n, i); }
      forall i, j | 0 <= i < j < |last| ensures last[i] != last[j] {
        BasesOrdered(splits[n], i, j);
        SplitEntryAt(splits[n], n, i);
        SplitEntryAt(splits[n], n, j);
      }
    }
  }

  lemma {:induction false} CountOfDistinct<T>(s: seq<T>, x: T)
    requires Distinct(s)
    ensures multiset(s)[x] <= 1
  {
    if s != [] {
      var front, last := s[..|s| - 1], s[|s| - 1];
      CountOfDistinct(front, x);
      assert s == front + [last];
      if x == last {
        assert last !in front;
        assert multiset(front)[last] == 0;
      }
    }
  }

  lemma DistinctPermutation<T>(a: seq<T>, b: seq<T>)
    requires Distinct(a) && multiset(a) == multiset(b)
    ensures Distinct(b)
  {
    forall i, j | 0 <= i < j < |b| ensures b[i] != b[j] {
      CountOfDistinct(a, b[i]);
      var head, tail := b[..j], b[j..];
      assert b == head + tail;
      assert b[i] == head[i] && b[j] == tail[0];
      assert b[i] in multiset(head) && b[j] in multiset(tail);
    }
  }

  ghost predicate Permuted(splits: seq<seq<Range>>, ranges: seq<Located>) {
    NonEmpty(splits) && multiset(ranges) == multiset(Entries(splits)) && SortedBy(StartLe, ranges)
  }

  lemma PermutedEntry(splits: seq<seq<Range>>, ranges: seq<Located>, e: Located)
    requires Permuted(splits, ranges)
    ensures e in ranges <==> e in Entries(splits)
  {
    assert e in ranges <==> e in multiset(ranges);
    assert e in Entries(splits) <==> e in multiset(Entries(splits));
  }

  lemma OverlapRefused(splits: seq<seq<Range>>, ranges: seq<Located>, i: nat)
    requires Permuted(splits, ranges) && 0 < i < |ranges| && ranges[i].start < ranges[i - 1].end
    ensures !Acceptable(splits)
  {
    var a, b := ranges[i - 1], ranges[i];
    var r := b.start;
    EntriesDistinct(splits);
    DistinctPermutation(Entries(splits), ranges);
    PermutedEntry(splits, ranges, a);
    PermutedEntry(splits, ranges, b);
    assert StartLe(a, b);
    EntriesNonEmpty(splits, ranges);
    EntryHolds(splits, a, r);
    EntryHolds(splits, b, r);
    if a.split == b.split && a.docBase + (r - a.start) == b.docBase {
      PlaceDecidesEntry(splits, a, b, r);
    }
  }

  ghost predicate Apart(ranges: seq<Located>) {
    forall k :: 0 < k < |ranges| ==> ranges[k - 1].end <= ranges[k].start
  }

  lemma {:induction false} ApartAll(ranges: seq<Located>, i: nat, j: nat)
    requires Apart(ranges) && i < j < |ranges|
    requires forall e :: e in ranges ==> e.start < e.end
    ensures ranges[i].end <= ranges[j].start
    decreases j
  {
    assert ranges[j - 1] in ranges;
    if i < j - 1 {
      ApartAll(ranges, i, j - 1);
    }
  }

  lemma EntriesNonEmpty(splits: seq<seq<Range>>, ranges: seq<Located>)
    requires Permuted(splits, ranges)
    ensures forall e :: e in ranges ==> e.start < e.end
  {
    forall e | e in ranges ensures e.start < e.end {
      PermutedEntry(splits, ranges, e);
      var i := EntryIndex(splits, e);
    }
  }

  /** At most one entry covers a row. */
  lemma CoverUnique(splits: seq<seq<Range>>, ranges: seq<Located>, a: Located, b: Located, r: nat)
    requires Permuted(splits, ranges) && Apart(ranges)
    requires a in Entries(splits) && b in Entries(splits)
    requires a.start <= r < a.end && b.start <= r < b.end
    ensures a == b
  {
    EntriesNonEmpty(splits, ranges);
    PermutedEntry(splits, ranges, a);
    PermutedEntry(splits, ranges, b);
    var i :| 0 <= i < |ranges| && ranges[i] == a;
    var j :| 0 <= j < |ranges| && ranges[j] == b;
    if i < j { ApartAll(ranges, i, j); }
    if j < i { ApartAll(ranges, j, i); }
  }

  lemma NoOverlapAccepted(splits: seq<seq<Range>>, ranges: seq<Located>)
    requires Permuted(splits, ranges) && Apart(ranges)
    requires Fits(splits)
    ensures Acceptable(splits)
  {
    forall s: nat, d: nat, t: nat, e: nat, r: nat | Holds(splits, s, d, r) && Holds(splits, t, e, r)
      ensures s == t && d == e
    {
      var a := HolderEntry(splits, s, d, r);
      var b := HolderEntry(splits, t, e, r);
      CoverUnique(splits, ranges, a, b, r);
    }
  }

  /** `locator` holds the ranges of `splits`, sorted by start and apart. */
  ghost predicate LocatorOf(locator: Locator, splits: seq<seq<Range>>) {
    Permuted(splits, locator.ranges) && Apart(locator.ranges) && Fits(splits)
  }

  // ---- locate ----

  /** `partition_point(|r| r.start <= row)`, by binary search. */
  method PartitionPoint(ranges: seq<Located>, row: nat) returns (p: nat)
    requires SortedBy(StartLe, ranges)
    ensures p <= |ranges|
    ensures forall i :: 0 <= i < p ==> ranges[i].start <= row
    ensures forall i :: p <= i < |ranges| ==> ranges[i].start > row
  {
    var low, high := 0, |ranges|;
    while low < high
      invariant 0 <= low <= high <= |ranges|
      invariant forall i :: 0 <= i < low ==> ranges[i].start <= row
      invariant forall i :: high <= i < |ranges| ==> ranges[i].start > row
    {
      var mid := (low + high) / 2;
      if ranges[mid].start <= row {
        assert forall i :: 0 <= i < mid ==> StartLe(ranges[i], ranges[mid]);
        low := mid + 1;
      } else {
        assert forall i :: mid < i < |ranges| ==> StartLe(ranges[mid], ranges[i]);
        high := mid;
      }
    }
    p := low;
  }

  /** The split index and doc id of `row`: the exact inverse of enumerating the splits' ranges, and
      every doc id fits a `u32`. */
  method Locate(locator: Locator, ghost splits: seq<seq<Range>>, row: nat) returns (r: Option<(nat, nat)>)
    requires LocatorOf(locator, splits)
    ensures forall s: nat, d: nat :: r == Some((s, d)) <==> Holds(splits, s, d, row)
    ensures r.Some? ==> r.value.1 <= U32_MAX
  {
    var ranges := locator.ranges;
    var after := PartitionPoint(ranges, row);
    if after == 0 || row >= ranges[after - 1].end {
      NotLocated(splits, ranges, row, after);
      return None;
    }
    var range := ranges[after - 1];
    LocatedHere(splits, ranges, range, row);
    r := Some((range.split, range.docBase + (row - range.start)));
  }

  lemma LocatedHere(splits: seq<seq<Range>>, ranges: seq<Located>, e: Located, row: nat)
    requires Permuted(splits, ranges) && Apart(ranges)
    requires e in ranges && e.start <= row < e.end
    ensures forall s: nat, d: nat :: Holds(splits, s, d, row) <==> Covers(e, s, d, row)
  {
    PermutedEntry(splits, ranges, e);
    EntryHolds(splits, e, row);
    forall s: nat, d: nat | Holds(splits, s, d, row) ensures Covers(e, s, d, row) {
      var f := HolderEntry(splits, s, d, row);
      CoverUnique(splits, ranges, e, f, row);
    }
  }

  lemma NotLocated(splits: seq<seq<Range>>, ranges: seq<Located>, row: nat, after: nat)
    requires Permuted(splits, ranges) && Apart(ranges) && after <= |ranges|
    requires forall i :: after <= i < |ranges| ==> ranges[i].start > row
    requires after == 0 || row >= ranges[after - 1].end
    ensures forall s: nat, d: nat :: !Holds(splits, s, d, row)
  {
    forall s: nat, d: nat | Holds(splits, s, d, row) ensures false {
      var e := HolderEntry(splits, s, d, row);
      PermutedEntry(splits, ranges, e);
      EntriesNonEmpty(splits, ranges);
      NoneCovers(ranges, row, after, e);
    }
  }

  lemma NoneCovers(ranges: seq<Located>, row: nat, after: nat, e: Located)
    requires Apart(ranges) && after <= |ranges| && e in ranges
    requires forall f :: f in ranges ==> f.start < f.end
    requires forall i :: after <= i < |ranges| ==> ranges[i].start > row
    requires after == 0 || row >= ranges[after - 1].end
    ensures !(e.start <= row < e.end)
  {
    var i :| 0 <= i < |ranges| && ranges[i] == e;
    if i < after - 1 {
      assert ranges[after - 1] in ranges;
      ApartAll(ranges, i, after - 1);
    }
  }
}
