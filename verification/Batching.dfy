/** What a stream folds to, and why cutting it into batches does not matter
    (`fold_stream` of crates/loams-collection/src/verify.rs against target.rs). */
module Batching {
  import opened Prelude
  import opened Sorting
  import opened PrimaryKeys
  import opened Documents
  import opened Resolve

  type Docs = map<PrimaryKey, StoredDoc>

  function Get(docs: Docs, key: PrimaryKey): Option<StoredDoc> {
    if key in docs then Some(docs[key]) else None
  }

  lemma SameDocs(a: Docs, b: Docs)
    requires forall k :: Get(a, k) == Get(b, k)
    ensures a == b
  {
    forall k ensures k in a <==> k in b {
      assert Get(a, k) == Get(b, k);
    }
    forall k | k in a ensures a[k] == b[k] {
      assert Get(a, k) == Get(b, k);
    }
  }

  // ---- fold_stream ----

  function ModelStep(rules: Rules, state: Docs, r: StreamRecord): Docs {
    if r.op.None? then state
    else
      var op := r.op.value;
      var key := op.Pk();
      if rules.home(key) != r.partition then state
      else if op.Delete? then state - {key}
      else
        var before := if key in state then Some(state[key].doc) else None;
        var after := if op.Upsert? then Some(op.doc) else ApplyPatch(before, op);
        if after.None? || (op.Patch? && after == before) || !rules.valid(after.value) then state
        else state[key := StoredDoc(after.value, r.partition, r.offset)]
  }

  function ModelFold(rules: Rules, records: seq<StreamRecord>): (state: Docs)
  {
    if records == [] then map[]
    else ModelStep(rules, ModelFold(rules, records[..|records| - 1]), records[|records| - 1])
  }

  predicate StreamLe(a: StreamRecord, b: StreamRecord) {
    a.partition < b.partition || (a.partition == b.partition && a.offset <= b.offset)
  }

  /** What the records of a collection's stream fold to, in partition order. */
  function StreamFold(rules: Rules, records: seq<StreamRecord>): Docs {
    ModelFold(rules, Sort(StreamLe, records))
  }

  method FoldStream(rules: Rules, records: seq<StreamRecord>) returns (state: Docs)
    ensures state == StreamFold(rules, records)
  {
    var ordered := Sort(StreamLe, records);
    state := map[];
    for i := 0 to |ordered|
      invariant state == ModelFold(rules, ordered[..i])
    {
      assert ordered[..i + 1][..i] == ordered[..i];
      var record := ordered[i];
      if record.op.None? || rules.home(record.op.value.Pk()) != record.partition {
        continue;
      }
      var op := record.op.value;
      var key := op.Pk();
      var after;
      match op {
        case Delete(_) =>
          state := state - {key};
          continue;
        case Upsert(doc) => after := doc;
        case Patch(_, _, _, _, _, _, _) =>
          var before := if key in state then Some(state[key].doc) else None;
          var patched := ApplyPatch(before, op);
          if patched.None? || patched == before {
            continue;
          }
          after := patched.value;
      }
      if rules.valid(after) {
        state := state[key := StoredDoc(after, record.partition, record.offset)];
      }
    }
    assert ordered[..|ordered|] == ordered;
  }

  // ---- One key of the model ----

  function ModelOp(rules: Rules, before: Option<StoredDoc>, r: StreamRecord): Option<StoredDoc> {
    if r.op.None? then before
    else if r.op.value.Delete? then None
    else
      var doc := if before.Some? then Some(before.value.doc) else None;
      var after := ApplyPatch(doc, r.op.value);
      if after.None? || (r.op.value.Patch? && after == doc) || !rules.valid(after.value) then before
      else Some(StoredDoc(after.value, r.partition, r.offset))
  }

  function ModelOps(rules: Rules, before: Option<StoredDoc>, ops: seq<StreamRecord>): (r: Option<StoredDoc>)
  {
    if ops == [] then before
    else ModelOp(rules, ModelOps(rules, before, ops[..|ops| - 1]), ops[|ops| - 1])
  }

  lemma {:induction false} ModelOpsConcat(
    rules: Rules, before: Option<StoredDoc>, a: seq<StreamRecord>, b: seq<StreamRecord>)
    ensures ModelOps(rules, before, a + b) == ModelOps(rules, ModelOps(rules, before, a), b)
    decreases |b|
  {
    if b == [] {
      assert a + b == a;
    } else {
      ModelOpsConcat(rules, before, a, b[..|b| - 1]);
      assert (a + b)[..|a + b| - 1] == a + b[..|b| - 1];
    }
  }

  /** The model of the whole stream, seen at one key, is the fold of that key's ops. */
  lemma {:induction false} ModelAtKey(rules: Rules, records: seq<StreamRecord>, key: PrimaryKey)
    ensures Get(ModelFold(rules, records), key) == ModelOps(rules, None, KeyOps(rules, records, key))
  {
    if records != [] {
      var n := |records| - 1;
      ModelAtKey(rules, records[..n], key);
      var before, r := ModelFold(rules, records[..n]), records[n];
      var ops, now := KeyOps(rules, records[..n], key), KeyOps(rules, records, key);
      if Touches(rules, key, r) {
        assert now == ops + [r];
        assert now[..|now| - 1] == ops;
        assert Get(ModelStep(rules, before, r), key) == ModelOp(rules, Get(before, key), r);
      } else {
        assert now == ops;
        assert Get(ModelStep(rules, before, r), key) == Get(before, key);
      }
    }
  }

  // ---- A batch at one key ----

  /** What committing a batch leaves at one key whose committed row is `before`. */
  function CommitKey(rules: Rules, before: Option<StoredDoc>, ops: seq<StreamRecord>): Option<StoredDoc> {
    if ops == [] then before
    else
      var current := if before.Some? && NeedsCurrent(ops) then Some(before.value.doc) else None;
      match OutcomeOf(FoldOps(rules, KeyState(current, None, multiset{}), ops), before.Some?)
      case Unchanged => before
      case Removed => None
      case Written(row) => Some(row)
  }

  /** The fold so far against the model so far: they hold the same document, and the key was last
      written by the fold, or not since the commit. */
  ghost predicate Matches(s: KeyState, before: Option<StoredDoc>, model: Option<StoredDoc>) {
    match (s.doc, s.written)
    case (Some(doc), Some(at)) => model == Some(StoredDoc(doc, at.partition, at.offset))
    case (Some(doc), None) => model == before && before.Some? && before.value.doc == doc
    case (None, w) => w.None? && model.None?
  }

  ghost predicate Accepted(rules: Rules, ops: seq<StreamRecord>) {
    forall i :: 0 <= i < |ops| ==> !Refused(rules, ops[i])
  }

  lemma MatchesStep(rules: Rules, s: KeyState, before: Option<StoredDoc>, model: Option<StoredDoc>, r: StreamRecord)
    requires Matches(s, before, model) || (r.op.Some? && !r.op.value.Patch?)
    requires !Refused(rules, r)
    ensures Matches(FoldOp(rules, s, r), before, ModelOp(rules, model, r))
  {
  }

  lemma {:induction false} FoldMatchesModel(
    rules: Rules, current: Option<Document>, before: Option<StoredDoc>, ops: seq<StreamRecord>)
    requires Accepted(rules, ops) && ops != []
    requires current == if before.Some? && NeedsCurrent(ops) then Some(before.value.doc) else None
    ensures Matches(FoldOps(rules, KeyState(current, None, multiset{}), ops), before, ModelOps(rules, before, ops))
    decreases |ops|
  {
    var n := |ops| - 1;
    var start := KeyState(current, None, multiset{});
    var s, model := FoldOps(rules, start, ops[..n]), ModelOps(rules, before, ops[..n]);
    if n > 0 {
      assert ops[..n][0] == ops[0];
      FoldMatchesModel(rules, current, before, ops[..n]);
    }
    MatchesStep(rules, s, before, model, ops[n]);
  }

  /** A batch leaves at every key what the model leaves there. */
  lemma CommitKeyIsModel(rules: Rules, before: Option<StoredDoc>, ops: seq<StreamRecord>)
    requires Accepted(rules, ops)
    ensures CommitKey(rules, before, ops) == ModelOps(rules, before, ops)
  {
    if ops != [] {
      var current := if before.Some? && NeedsCurrent(ops) then Some(before.value.doc) else None;
      FoldMatchesModel(rules, current, before, ops);
    }
  }

  // ---- Batches ----

  function CommitDocs(rules: Rules, docs: Docs, records: seq<StreamRecord>): (r: Docs) {
    map k | k in docs.Keys + KeysOf(rules, records)
            && CommitKey(rules, Get(docs, k), KeyOps(rules, records, k)).Some?
      :: CommitKey(rules, Get(docs, k), KeyOps(rules, records, k)).value
  }

  lemma CommitDocsAt(rules: Rules, docs: Docs, records: seq<StreamRecord>, key: PrimaryKey)
    ensures Get(CommitDocs(rules, docs, records), key)
         == ModelOps(rules, Get(docs, key), KeyOps(rules, records, key))
  {
    var ops := KeyOps(rules, records, key);
    FilterKeeps(r => Touches(rules, key, r), records);
    assert forall i :: 0 <= i < |ops| ==> Touches(rules, key, ops[i]);
    CommitKeyIsModel(rules, Get(docs, key), ops);
    if key !in KeysOf(rules, records) {
      KeyOpsOfOther(rules, records, key);
    }
  }

  /** Committing batches one after another. */
  function FoldBatches(rules: Rules, batches: seq<seq<StreamRecord>>): (r: Docs)
  {
    if batches == [] then map[]
    else CommitDocs(rules, FoldBatches(rules, batches[..|batches| - 1]), batches[|batches| - 1])
  }

  lemma {:induction false} BatchesAtKey(rules: Rules, batches: seq<seq<StreamRecord>>, key: PrimaryKey)
    ensures Get(FoldBatches(rules, batches), key)
         == ModelOps(rules, None, KeyOps(rules, Concat(batches), key))
  {
    if batches != [] {
      var n := |batches| - 1;
      var before, last := batches[..n], batches[n];
      BatchesAtKey(rules, before, key);
      CommitDocsAt(rules, FoldBatches(rules, before), last, key);
      FilterConcat(r => Touches(rules, key, r), Concat(before), last);
      assert KeyOps(rules, Concat(batches), key)
          == KeyOps(rules, Concat(before), key) + KeyOps(rules, last, key);
      ModelOpsConcat(rules, None, KeyOps(rules, Concat(before), key), KeyOps(rules, last, key));
    }
  }

  // ---- Sorting keeps every partition's order ----

  /** Offsets ascend within every partition. */
  ghost predicate StreamOrdered(records: seq<StreamRecord>) {
    forall i, j :: 0 <= i < j < |records| && records[i].partition == records[j].partition ==>
      records[i].offset < records[j].offset
  }

  /** Inserting a record that no relevant record stands above appends it to the relevant ones. */
  lemma {:induction false} InsertKeepsOrder(s: seq<StreamRecord>, x: StreamRecord, keep: StreamRecord -> bool)
    requires keep(x) ==> forall i :: 0 <= i < |s| && keep(s[i]) ==> StreamLe(s[i], x)
    ensures Filter(keep, Insert(StreamLe, s, x)) == Filter(keep, s) + if keep(x) then [x] else []
  {
    hide Filter, StreamLe;
    if s == [] || StreamLe(s[|s| - 1], x) {
      FilterStep(keep, s, x);
    } else {
      var front, last := s[..|s| - 1], s[|s| - 1];
      assert s == front + [last];
      InsertKeepsOrder(front, x, keep);
      FilterStep(keep, Insert(StreamLe, front, x), last);
      FilterStep(keep, front, last);
    }
  }

  lemma {:induction false} SortKeepsOrder(records: seq<StreamRecord>, partition: nat, keep: StreamRecord -> bool)
    requires StreamOrdered(records)
    requires forall r :: keep(r) ==> r.partition == partition
    ensures Filter(keep, Sort(StreamLe, records)) == Filter(keep, records)
  {
    if records != [] {
      var front, last := records[..|records| - 1], records[|records| - 1];
      SortKeepsOrder(front, partition, keep);
      var sorted := Sort(StreamLe, front);
      forall i | 0 <= i < |sorted| && keep(sorted[i]) && keep(last)
        ensures StreamLe(sorted[i], last)
      {
        assert sorted[i] in multiset(sorted);
        assert sorted[i] in front;
      }
      InsertKeepsOrder(sorted, last, keep);
    }
  }

  /** For every stream and every way of cutting it into batches, committing the batches one by one
      leaves for each key the document and the last writer of the one-pass model. */
  lemma BatchingRefinesStream(rules: Rules, batches: seq<seq<StreamRecord>>)
    requires StreamOrdered(Concat(batches))
    ensures FoldBatches(rules, batches) == StreamFold(rules, Concat(batches))
  {
    var records := Concat(batches);
    var left, right := FoldBatches(rules, batches), StreamFold(rules, records);
    forall key ensures Get(left, key) == Get(right, key) {
      BatchesAtKey(rules, batches, key);
      ModelAtKey(rules, Sort(StreamLe, records), key);
      SortKeepsOrder(records, rules.home(key), r => Touches(rules, key, r));
    }
    SameDocs(left, right);
  }

  /** Redelivering a patch of a document it has just patched is not a write. */
  lemma RedeliveredPatchKeepsWriter(rules: Rules, before: StoredDoc, r: StreamRecord, again: StreamRecord)
    requires r.op.Some? && r.op.value.Patch? && again.op == r.op
    ensures var once := ModelOp(rules, Some(before), r);
            once.Some? && ModelOp(rules, once, again) == once
  {
    PatchIdempotent(before.doc, r.op.value);
  }
}
