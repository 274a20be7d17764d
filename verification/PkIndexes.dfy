/** The PK index, its atomic writes, and repairing it
    (`repair` and `rebuild` of crates/loams-collection/src/target.rs). */
module PkIndexes {
  import opened Prelude
  import opened PrimaryKeys
  import KeyOrders
  import opened Resolve
  import opened RowSets
  import opened Commits
  import opened PkDeltas

  /** What a PK index holds. */
  datatype Index = Index(keys: KeyMap, mark: Watermark)

  /** One entry of a write: a key's new row, or `None` to delete it; or the watermark. */
  datatype Entry = Change(key: PrimaryKey, row: Option<RowId>) | Mark(mark: Watermark)

  function WriteOne(index: Index, e: Entry): Index {
    match e
    case Mark(mark) => index.(mark := mark)
    case Change(key, Some(row)) => index.(keys := index.keys[key := row])
    case Change(key, None) => index.(keys := index.keys - {key})
  }

  function WriteAll(index: Index, entries: seq<Entry>): (r: Index)
  {
    if entries == [] then index else WriteOne(WriteAll(index, entries[..|entries| - 1]), entries[|entries| - 1])
  }

  lemma {:induction false} WriteConcat(index: Index, a: seq<Entry>, b: seq<Entry>)
    ensures WriteAll(index, a + b) == WriteAll(WriteAll(index, a), b)
    decreases |b|
  {
    if b == [] {
      assert a + b == a;
    } else {
      hide WriteOne;
      WriteConcat(index, a, b[..|b| - 1]);
      assert (a + b)[..|a + b| - 1] == a + b[..|b| - 1];
    }
  }

  // ---- Writing a delta ----

  /** `entries` are the changes of `d`, in some order. */
  ghost predicate Lists(entries: seq<Entry>, d: Delta) {
    && (forall i :: 0 <= i < |entries| ==> Lists1(entries[i], d))
    && (forall k :: k in d ==> exists i :: 0 <= i < |entries| && entries[i] == Change(k, d[k]))
  }

  ghost predicate Lists1(e: Entry, d: Delta) {
    e.Change? && e.key in d && e.row == d[e.key]
  }

  lemma {:induction false} WriteKey(index: Index, entries: seq<Entry>, d: Delta, k: PrimaryKey)
    requires forall i :: 0 <= i < |entries| ==> Lists1(entries[i], d)
    ensures var after := WriteAll(index, entries);
            && after.mark == index.mark
            && if k in d && Change(k, d[k]) in entries
               then (k in after.keys <==> d[k].Some?) && (k in after.keys ==> after.keys[k] == d[k].value)
               else (k in after.keys <==> k in index.keys) && (k in after.keys ==> after.keys[k] == index.keys[k])
  {
    if entries != [] {
      var n := |entries| - 1;
      WriteKey(index, entries[..n], d, k);
      assert Lists1(entries[n], d);
      assert entries == entries[..n] + [entries[n]];
    }
  }

  /** Writing the changes of a delta applies it. */
  lemma ListsApply(index: Index, entries: seq<Entry>, d: Delta)
    requires Lists(entries, d)
    ensures WriteAll(index, entries) == Index(ApplyDelta(index.keys, d), index.mark)
  {
    hide WriteAll;
    var after := WriteAll(index, entries);
    forall k
      ensures (k in after.keys <==> k in ApplyDelta(index.keys, d))
           && (k in after.keys ==> after.keys[k] == ApplyDelta(index.keys, d)[k])
    {
      WriteKey(index, entries, d, k);
    }
    WriteKey(index, entries, d, Str([]));
    assert after.keys == ApplyDelta(index.keys, d);
  }

  /** The changes of `d`, its keys in `order`. */
  function EntriesOf(d: Delta, order: seq<PrimaryKey>): (entries: seq<Entry>)
    requires forall i :: 0 <= i < |order| ==> order[i] in d
  {
    seq(|order|, i requires 0 <= i < |order| => Change(order[i], d[order[i]]))
  }

  lemma EntriesList(d: Delta, order: seq<PrimaryKey>)
    requires KeyOrders.Lists(order, d.Keys)
    ensures (forall i :: 0 <= i < |order| ==> order[i] in d) && Lists(EntriesOf(d, order), d)
  {
    forall i | 0 <= i < |order| ensures order[i] in d { assert order[i] in order; }
    forall k | k in d ensures exists i :: 0 <= i < |order| && EntriesOf(d, order)[i] == Change(k, d[k]) {
      var i :| 0 <= i < |order| && order[i] == k;
      assert EntriesOf(d, order)[i] == Change(k, d[k]);
    }
  }

  /** The changes of `d`, in key order. */
  method ListDelta(d: Delta) returns (entries: seq<Entry>)
    ensures Lists(entries, d) && |entries| == |d|
  {
    var order := KeyOrders.SortKeys(d.Keys);
    EntriesList(d, order);
    KeyOrders.ListCount(order, d.Keys);
    entries := EntriesOf(d, order);
  }

  // ---- Rebuilding ----

  /** Deletes of every key that is not live, and puts of every live one. */
  function RebuildDelta(keys: KeyMap, live: KeyMap): Delta {
    map k | k in keys.Keys + live.Keys :: if k in live then Some(live[k]) else None
  }

  lemma RebuildsLive(keys: KeyMap, live: KeyMap)
    ensures ApplyDelta(keys, RebuildDelta(keys, live)) == live
  {
  }

  /** The writes still to do, once done, leave the live rows and the target watermark. */
  ghost predicate Completes(index: Index, rest: seq<Entry>, live: KeyMap, target: Watermark) {
    WriteAll(index, rest) == Index(live, target)
  }

  /** All the entries of a rebuild of `index`, the watermark last. */
  ghost predicate RebuildPlan(index: Index, live: KeyMap, target: Watermark, entries: seq<Entry>) {
    && entries != [] && entries[|entries| - 1] == Mark(target)
    && Lists(entries[..|entries| - 1], RebuildDelta(index.keys, live))
  }

  lemma PlanCompletes(index: Index, live: KeyMap, target: Watermark, entries: seq<Entry>)
    requires RebuildPlan(index, live, target, entries)
    ensures Completes(index, entries, live, target) && Completes(index.(mark := REBUILDING), entries, live, target)
  {
    var body := entries[..|entries| - 1];
    var d := RebuildDelta(index.keys, live);
    ListsApply(index, body, d);
    ListsApply(index.(mark := REBUILDING), body, d);
    RebuildsLive(index.keys, live);
  }

  /** A chunk further. */
  lemma CompletesOn(index: Index, rest: seq<Entry>, live: KeyMap, target: Watermark, n: nat)
    requires Completes(index, rest, live, target) && n <= |rest|
    ensures Completes(WriteAll(index, rest[..n]), rest[n..], live, target)
  {
    WriteConcat(index, rest[..n], rest[n..]);
    assert rest[..n] + rest[n..] == rest;
  }

  lemma {:induction false} ChangesKeepMark(index: Index, entries: seq<Entry>)
    requires forall i :: 0 <= i < |entries| ==> entries[i].Change?
    ensures WriteAll(index, entries).mark == index.mark
  {
    if entries != [] {
      ChangesKeepMark(index, entries[..|entries| - 1]);
    }
  }

  // ---- The index as a store ----

  /** The PK index behind one handle, and how many writes of it have failed. A write is atomic; one that
      fails may still have happened. */
  class PkIndex {
    var keys: KeyMap
    var mark: Watermark
    var failures: nat

    ghost function Contents(): Index
      reads this
    {
      Index(keys, mark)
    }

    constructor ()
      ensures Contents() == Index(map[], NO_MARK) && failures == 0
    {
      keys, mark, failures := map[], NO_MARK, 0;
    }

    method Write(entries: seq<Entry>) returns (ok: bool)
      modifies this
      ensures Contents() == old(Contents()) || Contents() == WriteAll(old(Contents()), entries)
      ensures ok ==> Contents() == WriteAll(old(Contents()), entries)
      ensures failures == old(failures) + if ok then 0 else 1
    {
      var after := WriteAll(Index(keys, mark), entries);
      if * {
        ok, failures := false, failures + 1;
        if * {
          keys, mark := after.keys, after.mark;
        }
      } else {
        keys, mark := after.keys, after.mark;
        ok := true;
      }
    }

    /** Rebuilds the index: the marker first if one write is not enough, the target last. However it
        ends, the index holds what it held, or all of the live rows under the target, or, if one write
        is not enough, the marker. */
    method Rebuild(live: KeyMap, target: Watermark, chunk: nat) returns (ok: bool)
      requires chunk > 0
      modifies this
      ensures ok ==> Contents() == Index(live, target)
      ensures || Contents() == old(Contents()) || Contents() == Index(live, target)
              || (mark == REBUILDING && |RebuildDelta(old(keys), live)| + 1 > chunk)
      ensures failures == old(failures) + if ok then 0 else 1
    {
      var changes := ListDelta(RebuildDelta(keys, live));
      var entries := changes + [Mark(target)];
      assert entries[..|entries| - 1] == changes;
      PlanCompletes(Contents(), live, target, entries);
      if |entries| > chunk {
        ok := Write([Mark(REBUILDING)]);
        assert [Mark(REBUILDING)][..0] == [];
        assert WriteAll(old(Contents()), [Mark(REBUILDING)]) == old(Contents()).(mark := REBUILDING);
        if !ok {
          return;
        }
      }
      while entries != []
        invariant Completes(Contents(), entries, live, target)
        invariant entries != [] ==>
                    || (mark == REBUILDING && |RebuildDelta(old(keys), live)| + 1 > chunk)
                    || (Contents() == old(Contents()) && |entries| <= chunk)
        invariant entries != [] ==> Ends(entries, target)
        invariant failures == old(failures)
        decreases |entries|
      {
        var n := if |entries| < chunk then |entries| else chunk;
        CompletesOn(Contents(), entries, live, target, n);
        ghost var before := Contents();
        WritePart(before, entries, n, live, target);
        ok := Write(entries[..n]);
        if !ok {
          return;
        }
        entries := entries[n..];
      }
      ok := true;
    }
  }

  /** Changes, then the watermark. */
  ghost predicate Ends(entries: seq<Entry>, target: Watermark) {
    && entries != [] && entries[|entries| - 1] == Mark(target)
    && forall i :: 0 <= i < |entries| - 1 ==> entries[i].Change?
  }

  /** One write of a rebuild leaves the watermark as it is, unless it is the last. */
  lemma WritePart(index: Index, entries: seq<Entry>, n: nat, live: KeyMap, target: Watermark)
    requires Ends(entries, target) && 0 < n <= |entries| && Completes(index, entries, live, target)
    ensures n < |entries| ==> WriteAll(index, entries[..n]).mark == index.mark && Ends(entries[n..], target)
    ensures n == |entries| ==> WriteAll(index, entries[..n]) == Index(live, target)
  {
    if n < |entries| {
      ChangesKeepMark(index, entries[..n]);
    } else {
      assert entries[..n] == entries;
    }
  }
}
