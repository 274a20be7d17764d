/** The offsets a commit covers (`skipped_offsets` of crates/loams-collection/src/target.rs). */
module Offsets {
  import opened Prelude
  import opened Resolve
  import opened Batching

  /** Per partition, the offset up to which the stream is applied. */
  type Applied = map<nat, nat>

  function UpTo(applied: Applied, partition: nat): nat {
    if partition in applied then applied[partition] else 0
  }

  /** What a link applies in one commit. */
  datatype Batch = Batch(records: seq<StreamRecord>, appliedAfter: Applied)

  /** `record` lies in the range its partition's offsets move over. */
  predicate Covered(applied: Applied, after: Applied, record: StreamRecord) {
    UpTo(applied, record.partition) <= record.offset < UpTo(applied + after, record.partition)
  }

  /** What `skipped_offsets` demands: every record is in its partition's range, no partition goes back. */
  ghost predicate BatchFits(applied: Applied, batch: Batch) {
    && (forall i :: 0 <= i < |batch.records| ==> Covered(applied, batch.appliedAfter, batch.records[i]))
    && (forall p :: p in batch.appliedAfter ==> UpTo(applied, p) <= batch.appliedAfter[p])
  }

  function CountIn(records: seq<StreamRecord>, partition: nat): (n: nat)
  {
    if records == [] then 0
    else CountIn(records[..|records| - 1], partition)
         + if records[|records| - 1].partition == partition then 1 else 0
  }

  /** The offsets of a partition that no record of the batch has. */
  function SkippedIn(applied: Applied, batch: Batch, p: nat): nat {
    var covered := UpTo(applied + batch.appliedAfter, p) - UpTo(applied, p);
    if covered > CountIn(batch.records, p) then covered - CountIn(batch.records, p) else 0
  }

  ghost function Skipped(applied: Applied, batch: Batch): int {
    Total(p => SkippedIn(applied, batch, p), batch.appliedAfter.Keys)
  }

  method SkippedOffsets(applied: Applied, batch: Batch) returns (r: Result<int, Corrupt>)
    ensures r.Ok? <==> BatchFits(applied, batch)
    ensures r.Ok? ==> r.value == Skipped(applied, batch)
  {
    hide Total;
    var perPartition: map<nat, nat> := map[];
    for i := 0 to |batch.records|
      invariant forall j :: 0 <= j < i ==> Covered(applied, batch.appliedAfter, batch.records[j])
      invariant forall p :: CountIn(batch.records[..i], p) == UpTo(perPartition, p)
    {
      var record := batch.records[i];
      assert batch.records[..i + 1][..i] == batch.records[..i];
      var from := UpTo(applied, record.partition);
      var to := if record.partition in batch.appliedAfter then batch.appliedAfter[record.partition] else from;
      if !(from <= record.offset < to) {
        assert !Covered(applied, batch.appliedAfter, record);
        return Err(Corrupt);
      }
      perPartition := perPartition[record.partition := UpTo(perPartition, record.partition) + 1];
    }
    assert batch.records[..|batch.records|] == batch.records;
    var skipped := 0;
    var todo := batch.appliedAfter.Keys;
    NothingTotal(applied, batch);
    while todo != {}
      invariant todo <= batch.appliedAfter.Keys
      invariant forall p :: p in batch.appliedAfter.Keys - todo ==> UpTo(applied, p) <= batch.appliedAfter[p]
      invariant skipped == Total(p => SkippedIn(applied, batch, p), batch.appliedAfter.Keys - todo)
      decreases todo
    {
      var p :| p in todo;
      var from, to := UpTo(applied, p), batch.appliedAfter[p];
      if to < from {
        return Err(Corrupt);
      }
      var covered := to - from;
      var records := UpTo(perPartition, p);
      TotalAdd(p => SkippedIn(applied, batch, p), batch.appliedAfter.Keys - todo, p);
      assert batch.appliedAfter.Keys - todo + {p} == batch.appliedAfter.Keys - (todo - {p});
      skipped := skipped + if covered > records then covered - records else 0;
      todo := todo - {p};
    }
    assert batch.appliedAfter.Keys - todo == batch.appliedAfter.Keys;
    r := Ok(skipped);
  }

  lemma NothingTotal(applied: Applied, batch: Batch)
    ensures Total(p => SkippedIn(applied, batch, p), batch.appliedAfter.Keys - batch.appliedAfter.Keys) == 0
  {
    assert batch.appliedAfter.Keys - batch.appliedAfter.Keys == {};
  }

  /** `r` lies in its partition's window, from where `applied` ends to where `to` ends. */
  predicate InWindow(applied: Applied, to: Applied, r: StreamRecord) {
    r.partition in to && UpTo(applied, r.partition) <= r.offset < to[r.partition]
  }

  /** Any window of a stream that goes no partition back fits, with its records in any order and
      however few they are. */
  lemma WindowFits(applied: Applied, to: Applied, records: seq<StreamRecord>)
    requires forall p :: p in to ==> UpTo(applied, p) <= to[p]
    ensures BatchFits(applied, Batch(Filter(r => InWindow(applied, to, r), records), to))
  {
    var window := Filter(r => InWindow(applied, to, r), records);
    FilterKeeps(r => InWindow(applied, to, r), records);
    forall i | 0 <= i < |window| ensures Covered(applied, to, window[i]) {
      assert InWindow(applied, to, window[i]);
    }
  }

  // ---- Conservation ----

  ghost function AppliedTotal(applied: Applied): int {
    Total(p => UpTo(applied, p), applied.Keys)
  }

  /** Ascending offsets of a partition within a range are no more than the range is long. */
  lemma {:induction false} CountFits(records: seq<StreamRecord>, p: nat, from: nat, to: nat)
    requires StreamOrdered(records) && from <= to
    requires forall i :: 0 <= i < |records| && records[i].partition == p ==> from <= records[i].offset < to
    ensures CountIn(records, p) <= to - from
  {
    if records != [] {
      var n := |records| - 1;
      if records[n].partition == p {
        CountFits(records[..n], p, from, records[n].offset);
      } else {
        CountFits(records[..n], p, from, to);
      }
    }
  }

  /** Every record is counted in one partition. */
  lemma {:induction false} CountAll(records: seq<StreamRecord>, keys: set<nat>)
    requires forall i :: 0 <= i < |records| ==> records[i].partition in keys
    ensures Total(p => CountIn(records, p), keys) == |records|
  {
    hide Total;
    if records == [] {
      TotalOutside(p => CountIn(records, p), {}, keys);
      TotalNone(p => CountIn(records, p));
    } else {
      var n := |records| - 1;
      var here := records[n].partition;
      CountAll(records[..n], keys);
      var one := (p: nat) => if p == here then 1 else 0;
      TotalSum(p => CountIn(records[..n], p), one, p => CountIn(records, p), keys);
      TotalOutside(one, {here}, keys);
      TotalNone(one);
      TotalAdd(one, {}, here);
      assert {} + {here} == {here};
    }
  }

  lemma TotalNone<K>(f: K -> int)
    ensures Total(f, {}) == 0
  {
  }

  /** A commit moves the applied offsets by its records and its skipped offsets. */
  lemma OffsetsConserved(applied: Applied, batch: Batch)
    requires BatchFits(applied, batch) && StreamOrdered(batch.records)
    ensures AppliedTotal(applied + batch.appliedAfter)
         == AppliedTotal(applied) + |batch.records| + Skipped(applied, batch)
  {
    hide Total;
    var after := applied + batch.appliedAfter;
    var moved := batch.appliedAfter.Keys;
    var gain := p => UpTo(after, p) - UpTo(applied, p);
    TotalSum(p => UpTo(applied, p), gain, p => UpTo(after, p), after.Keys);
    TotalOutside(p => UpTo(applied, p), applied.Keys, after.Keys);
    TotalOutside(gain, moved, after.Keys);
    forall p | p in moved ensures gain(p) == CountIn(batch.records, p) + SkippedIn(applied, batch, p) {
      CountFits(batch.records, p, UpTo(applied, p), UpTo(after, p));
    }
    TotalSum(p => CountIn(batch.records, p), p => SkippedIn(applied, batch, p), gain, moved);
    forall i | 0 <= i < |batch.records| ensures batch.records[i].partition in moved {
      assert Covered(applied, batch.appliedAfter, batch.records[i]);
    }
    CountAll(batch.records, moved);
  }

  /** No partition goes back. */
  ghost predicate AppliedLe(a: Applied, b: Applied) {
    a.Keys <= b.Keys && forall p :: p in a ==> a[p] <= b[p]
  }

  lemma AppliedGrows(applied: Applied, batch: Batch)
    requires BatchFits(applied, batch)
    ensures AppliedLe(applied, applied + batch.appliedAfter)
  {
    forall p | p in applied ensures applied[p] <= (applied + batch.appliedAfter)[p] {
      if p in batch.appliedAfter {
        assert UpTo(applied, p) <= batch.appliedAfter[p];
      }
    }
  }

  /** Every record moves the applied offset of its partition. */
  lemma RecordMoves(applied: Applied, batch: Batch)
    requires BatchFits(applied, batch) && batch.records != []
    ensures applied + batch.appliedAfter != applied
  {
    assert Covered(applied, batch.appliedAfter, batch.records[0]);
  }
}
