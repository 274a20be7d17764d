/** Which records become dead letters (`resolve` and `fold_key` of
    crates/loams-collection/src/target.rs), read off the model of the stream: a record is lettered by
    what it is and by the document the model holds just before it. */
module Letters {
  import opened Prelude
  import opened Sorting
  import opened PrimaryKeys
  import opened Documents
  import opened Resolve
  import opened Batching
  import opened RowSets
  import opened Commits

  function DocOf(row: Option<StoredDoc>): Option<Document> {
    if row.Some? then Some(row.value.doc) else None
  }

  /** The record is of no use to a model that holds `before` for its key: it does not decode, its key
      belongs to another partition, it upserts an invalid document, or it is a patch whose result is
      a different document, and invalid. */
  predicate Lettered(rules: Rules, before: Option<StoredDoc>, r: StreamRecord) {
    r.op.None? || rules.home(r.op.value.Pk()) != r.partition ||
    match r.op.value
    case Upsert(doc) => !rules.valid(doc)
    case Delete(_) => false
    case Patch(_, _, _, _, _, _, _) =>
      var after := ApplyPatch(DocOf(before), r.op.value);
      after.Some? && after != DocOf(before) && !rules.valid(after.value)
  }

  /** What the model holds for the key of `r` after `records`, starting from `docs`. */
  function Before(rules: Rules, docs: Docs, records: seq<StreamRecord>, r: StreamRecord): Option<StoredDoc> {
    if r.op.None? then None
    else ModelOps(rules, Get(docs, r.op.value.Pk()), KeyOps(rules, records, r.op.value.Pk()))
  }

  function Letter(lettered: bool, r: StreamRecord): multiset<Origin> {
    if lettered then multiset{r.At()} else multiset{}
  }

  /** The dead letters of `records` on top of `docs`. */
  function BatchLetters(rules: Rules, docs: Docs, records: seq<StreamRecord>): (r: multiset<Origin>)
  {
    if records == [] then multiset{}
    else
      var front, last := records[..|records| - 1], records[|records| - 1];
      BatchLetters(rules, docs, front) + Letter(Lettered(rules, Before(rules, docs, front, last), last), last)
  }

  lemma BatchLettersStep(rules: Rules, docs: Docs, records: seq<StreamRecord>, r: StreamRecord)
    ensures BatchLetters(rules, docs, records + [r])
         == BatchLetters(rules, docs, records) + Letter(Lettered(rules, Before(rules, docs, records, r), r), r)
  {
    assert (records + [r])[..|records|] == records;
  }

  /** On the whole stream, the model just before a record is the one-pass fold of what precedes it. */
  lemma BeforeIsModelFold(rules: Rules, records: seq<StreamRecord>, r: StreamRecord)
    requires r.op.Some?
    ensures Before(rules, map[], records, r) == Get(ModelFold(rules, records), r.op.value.Pk())
  {
    ModelAtKey(rules, records, r.op.value.Pk());
  }

  /** Record `i` is the one of `at`, and is lettered against the model just before it. */
  ghost predicate LetteredAt(rules: Rules, docs: Docs, records: seq<StreamRecord>, i: int, at: Origin) {
    && 0 <= i < |records| && records[i].At() == at
    && Lettered(rules, Before(rules, docs, records[..i], records[i]), records[i])
  }

  lemma LetteredEarlier(rules: Rules, docs: Docs, records: seq<StreamRecord>, r: StreamRecord, i: int, at: Origin)
    ensures i != |records| ==>
              LetteredAt(rules, docs, records + [r], i, at) == LetteredAt(rules, docs, records, i, at)
    ensures LetteredAt(rules, docs, records + [r], |records|, at)
       <==> r.At() == at && Lettered(rules, Before(rules, docs, records, r), r)
  {
    hide Lettered, Before;
    var all := records + [r];
    assert 0 <= i < |records| ==> all[..i] == records[..i];
    assert all[..|records|] == records;
  }

  /** The dead letters are exactly the records lettered against the model just before them. */
  lemma {:induction false} LettersAre(rules: Rules, docs: Docs, records: seq<StreamRecord>, at: Origin)
    ensures at in BatchLetters(rules, docs, records) <==> exists i :: LetteredAt(rules, docs, records, i, at)
  {
    if records != [] {
      hide Lettered, Before, LetteredAt, BatchLetters;
      var front, r := records[..|records| - 1], records[|records| - 1];
      assert records == front + [r];
      LettersAre(rules, docs, front, at);
      BatchLettersStep(rules, docs, front, r);
      forall i
        ensures i != |front| ==> LetteredAt(rules, docs, records, i, at) == LetteredAt(rules, docs, front, i, at)
      {
        LetteredEarlier(rules, docs, front, r, i, at);
      }
      LetteredEarlier(rules, docs, front, r, |front|, at);
      NotBeyond(rules, docs, front, at);
    }
  }

  lemma NotBeyond(rules: Rules, docs: Docs, records: seq<StreamRecord>, at: Origin)
    ensures !LetteredAt(rules, docs, records, |records|, at)
  {
  }

  // ---- One key ----

  /** The dead letters of one key's ops on top of its row. */
  function OpsLetters(rules: Rules, before: Option<StoredDoc>, ops: seq<StreamRecord>): (r: multiset<Origin>)
  {
    if ops == [] then multiset{}
    else
      var front, last := ops[..|ops| - 1], ops[|ops| - 1];
      OpsLetters(rules, before, front) + Letter(Lettered(rules, ModelOps(rules, before, front), last), last)
  }

  lemma OneLetter(rules: Rules, s: KeyState, before: Option<StoredDoc>, model: Option<StoredDoc>, r: StreamRecord)
    requires Matches(s, before, model) || (r.op.Some? && !r.op.value.Patch?)
    requires !Refused(rules, r)
    ensures FoldOp(rules, s, r).letters == s.letters + Letter(Lettered(rules, model, r), r)
  {
  }

  /** Folding a key's ops, from the document its first op needs, letters what the model letters. */
  lemma {:induction false} FoldLettersModel(
    rules: Rules, current: Option<Document>, before: Option<StoredDoc>, ops: seq<StreamRecord>)
    requires Accepted(rules, ops)
    requires current == if before.Some? && NeedsCurrent(ops) then Some(before.value.doc) else None
    ensures FoldOps(rules, KeyState(current, None, multiset{}), ops).letters == OpsLetters(rules, before, ops)
    decreases |ops|
  {
    var start := KeyState(current, None, multiset{});
    if ops == [] {
      assert FoldOps(rules, start, ops) == start && OpsLetters(rules, before, ops) == multiset{};
    } else {
      hide *;
      var front, last := ops[..|ops| - 1], ops[|ops| - 1];
      FrontOps(rules, ops);
      if front == [] {
        FirstOp(rules, current, before, ops);
      } else {
        FoldLettersModel(rules, current, before, front);
        FoldMatchesModel(rules, current, before, front);
      }
      OneLetter(rules, FoldOps(rules, start, front), before, ModelOps(rules, before, front), last);
      LastOp(rules, start, before, ops);
    }
  }

  lemma FrontOps(rules: Rules, ops: seq<StreamRecord>)
    requires Accepted(rules, ops) && ops != []
    ensures var n := |ops| - 1;
            && Accepted(rules, ops[..n]) && !Refused(rules, ops[n])
            && (n > 0 ==> NeedsCurrent(ops[..n]) == NeedsCurrent(ops))
  {
    hide Refused;
  }

  lemma LastOp(rules: Rules, start: KeyState, before: Option<StoredDoc>, ops: seq<StreamRecord>)
    requires ops != []
    ensures var front, last := ops[..|ops| - 1], ops[|ops| - 1];
            && FoldOps(rules, start, ops) == FoldOp(rules, FoldOps(rules, start, front), last)
            && OpsLetters(rules, before, ops)
               == OpsLetters(rules, before, front) + Letter(Lettered(rules, ModelOps(rules, before, front), last), last)
  {
    hide FoldOp, Lettered, ModelOp, Letter;
  }

  /** Nothing is folded before the first op, and a patch starts from the committed document. */
  lemma FirstOp(rules: Rules, current: Option<Document>, before: Option<StoredDoc>, ops: seq<StreamRecord>)
    requires |ops| == 1 && !Refused(rules, ops[0])
    requires current == if before.Some? && NeedsCurrent(ops) then Some(before.value.doc) else None
    ensures var s := FoldOps(rules, KeyState(current, None, multiset{}), ops[..0]);
            && s.letters == multiset{} == OpsLetters(rules, before, ops[..0])
            && (|| Matches(s, before, ModelOps(rules, before, ops[..0]))
                || (ops[0].op.Some? && !ops[0].op.value.Patch?))
  {
  }

  // ---- All keys ----

  function KeyPart(rules: Rules, docs: Docs, records: seq<StreamRecord>, k: PrimaryKey): multiset<Origin> {
    OpsLetters(rules, Get(docs, k), KeyOps(rules, records, k))
  }

  lemma KeyPartStep(rules: Rules, docs: Docs, records: seq<StreamRecord>, r: StreamRecord, k: PrimaryKey)
    ensures KeyPart(rules, docs, records + [r], k)
         == KeyPart(rules, docs, records, k)
            + Letter(Touches(rules, k, r) && Lettered(rules, Before(rules, docs, records, r), r), r)
  {
    hide KeyOps, Lettered;
    KeyOpsStep(rules, records, r, k);
    var ops := KeyOps(rules, records, k);
    assert (ops + [r])[..|ops|] == ops && ops + [] == ops;
  }

  /** The letters are those of the refused records and those of every key's ops. */
  lemma {:induction false} LettersByKey(rules: Rules, docs: Docs, records: seq<StreamRecord>, keys: set<PrimaryKey>)
    requires KeysOf(rules, records) <= keys
    ensures BatchLetters(rules, docs, records)
         == RefusedLetters(rules, records) + Gathered(k => KeyPart(rules, docs, records, k), keys)
    decreases |records|
  {
    if records == [] {
      NoneGathered(rules, docs, keys);
    } else {
      var front, r := records[..|records| - 1], records[|records| - 1];
      assert records == front + [r];
      hide *;
      KeysStep(rules, front, r);
      LettersByKey(rules, docs, front, keys);
      BatchLettersStep(rules, docs, front, r);
      RefusedStep(rules, front, r);
      LetteredWhen(rules, Before(rules, docs, front, r), r);
      PartsStep(rules, docs, front, r, keys);
    }
  }

  lemma LetteredWhen(rules: Rules, before: Option<StoredDoc>, r: StreamRecord)
    ensures Refused(rules, r) ==> Lettered(rules, before, r)
    ensures Letter(true, r) == multiset{r.At()} && Letter(false, r) == multiset{}
  {
  }

  lemma {:induction false} NoneGathered(rules: Rules, docs: Docs, keys: set<PrimaryKey>)
    ensures Gathered(k => KeyPart(rules, docs, [], k), keys) == multiset{}
    decreases |keys|
  {
    if keys != {} {
      var k :| k in keys;
      NoneGathered(rules, docs, keys - {k});
      assert keys == keys - {k} + {k};
      GatheredAdd(k => KeyPart(rules, docs, [], k), keys - {k}, k);
      assert KeyOps(rules, [], k) == [];
    }
  }

  lemma PartsStep(rules: Rules, docs: Docs, records: seq<StreamRecord>, r: StreamRecord, keys: set<PrimaryKey>)
    requires Refused(rules, r) || r.op.value.Pk() in keys
    ensures Gathered(k => KeyPart(rules, docs, records + [r], k), keys)
         == Gathered(k => KeyPart(rules, docs, records, k), keys)
            + Letter(!Refused(rules, r) && Lettered(rules, Before(rules, docs, records, r), r), r)
  {
    var was, now := k => KeyPart(rules, docs, records, k), k => KeyPart(rules, docs, records + [r], k);
    forall k ensures now(k) == was(k)
                  + Letter(Touches(rules, k, r) && Lettered(rules, Before(rules, docs, records, r), r), r)
    {
      KeyPartStep(rules, docs, records, r, k);
    }
    hide Lettered, Before, KeyPart, Gathered;
    if Refused(rules, r) {
      GatheredSame(was, now, keys);
    } else {
      var key := r.op.value.Pk();
      var rest := keys - {key};
      assert keys == rest + {key};
      GatheredSame(was, now, rest);
      GatheredAdd(was, rest, key);
      GatheredAdd(now, rest, key);
    }
  }

  // ---- A resolution ----

  lemma EndLetters(rules: Rules, rows: RowSet, view: KeyMap, records: seq<StreamRecord>, k: PrimaryKey)
    requires Exact(view, rows)
    ensures LettersOf(KeyEnd(rules, rows, view, records, k)) == KeyPart(rules, DocsAt(view, rows), records, k)
  {
    var ops := KeyOps(rules, records, k);
    ExactRead(rules, rows, view, records, k);
    FilterKeeps(r => Touches(rules, k, r), records);
    assert forall i :: 0 <= i < |ops| ==> Touches(rules, k, ops[i]);
    hide KeyOps, Exact, DocsAt, FoldOps, OpsLetters;
    FoldLettersModel(rules, ReadCurrent(rows, view, ops, k).value, Get(DocsAt(view, rows), k), ops);
  }

  /** Through an exact view, the dead letters of a batch are its refused records and exactly the
      accepted patches that give, on the model's document just before them, another document that is
      not valid. */
  lemma ResolutionLetters(rules: Rules, rows: RowSet, view: KeyMap, records: seq<StreamRecord>, r: Resolution)
    requires Exact(view, rows) && Resolves(rules, rows, view, records, KeysOf(rules, records), r)
    ensures r.letters == BatchLetters(rules, DocsAt(view, rows), records)
  {
    hide KeyPart, LettersOf, KeyEnd, KeysOf, RefusedLetters, BatchLetters, Gathered, Exact, DocsAt, KeyResolves;
    var docs, keys := DocsAt(view, rows), KeysOf(rules, records);
    forall k ensures LettersOf(KeyEnd(rules, rows, view, records, k)) == KeyPart(rules, docs, records, k) {
      EndLetters(rules, rows, view, records, k);
    }
    GatheredSame(
      k => LettersOf(KeyEnd(rules, rows, view, records, k)), k => KeyPart(rules, docs, records, k), keys);
    LettersByKey(rules, docs, records, keys);
  }

  // ---- Cutting a stream ----

  /** The letters of a stream may be taken at any cut: those before it, and those after it on top of
      what the first part commits. */
  lemma {:induction false} LettersConcat(rules: Rules, docs: Docs, a: seq<StreamRecord>, b: seq<StreamRecord>)
    ensures BatchLetters(rules, docs, a + b)
         == BatchLetters(rules, docs, a) + BatchLetters(rules, CommitDocs(rules, docs, a), b)
    decreases |b|
  {
    if b == [] {
      assert a + b == a;
      assert BatchLetters(rules, CommitDocs(rules, docs, a), b) == multiset{};
    } else {
      hide *;
      var front, last := b[..|b| - 1], b[|b| - 1];
      assert b == front + [last] && a + b == a + front + [last];
      LettersConcat(rules, docs, a, front);
      BatchLettersStep(rules, docs, a + front, last);
      BatchLettersStep(rules, CommitDocs(rules, docs, a), front, last);
      BeforeConcat(rules, docs, a, front, last);
    }
  }

  lemma BeforeConcat(rules: Rules, docs: Docs, a: seq<StreamRecord>, b: seq<StreamRecord>, r: StreamRecord)
    ensures Before(rules, docs, a + b, r) == Before(rules, CommitDocs(rules, docs, a), b, r)
  {
    if r.op.Some? {
      hide KeyOps, CommitDocs;
      var k := r.op.value.Pk();
      CommitDocsAt(rules, docs, a, k);
      KeyOpsConcat(rules, a, b, k);
      ModelOpsConcat(rules, Get(docs, k), KeyOps(rules, a, k), KeyOps(rules, b, k));
    }
  }

  lemma KeyOpsConcat(rules: Rules, a: seq<StreamRecord>, b: seq<StreamRecord>, k: PrimaryKey)
    ensures KeyOps(rules, a + b, k) == KeyOps(rules, a, k) + KeyOps(rules, b, k)
  {
    FilterConcat(r => Touches(rules, k, r), a, b);
  }

  /** The letters of committing batches one after another. */
  function BatchesLetters(rules: Rules, batches: seq<seq<StreamRecord>>): (r: multiset<Origin>)
  {
    if batches == [] then multiset{}
    else
      var front, last := batches[..|batches| - 1], batches[|batches| - 1];
      BatchesLetters(rules, front) + BatchLetters(rules, FoldBatches(rules, front), last)
  }

  lemma {:induction false} FoldBatchesConcat(rules: Rules, batches: seq<seq<StreamRecord>>)
    ensures FoldBatches(rules, batches) == CommitDocs(rules, map[], Concat(batches))
  {
    forall k ensures Get(FoldBatches(rules, batches), k) == Get(CommitDocs(rules, map[], Concat(batches)), k) {
      BatchesAtKey(rules, batches, k);
      CommitDocsAt(rules, map[], Concat(batches), k);
    }
    hide FoldBatches, CommitDocs;
    SameDocs(FoldBatches(rules, batches), CommitDocs(rules, map[], Concat(batches)));
  }

  lemma {:induction false} BatchesLettersAre(rules: Rules, batches: seq<seq<StreamRecord>>)
    ensures BatchesLetters(rules, batches) == BatchLetters(rules, map[], Concat(batches))
  {
    if batches != [] {
      hide CommitDocs, FoldBatches, BatchLetters;
      var front, last := batches[..|batches| - 1], batches[|batches| - 1];
      BatchesLettersAre(rules, front);
      FoldBatchesConcat(rules, front);
      LettersConcat(rules, map[], Concat(front), last);
    } else {
      assert Concat(batches) == [];
    }
  }

  /** The dead letters of a collection's stream, in partition order. */
  function StreamLetters(rules: Rules, records: seq<StreamRecord>): multiset<Origin> {
    BatchLetters(rules, map[], Sort(StreamLe, records))
  }

  lemma {:induction false} InsertRefused(rules: Rules, s: seq<StreamRecord>, x: StreamRecord)
    ensures RefusedLetters(rules, Insert(StreamLe, s, x)) == RefusedLetters(rules, s + [x])
  {
    hide RefusedLetters, StreamLe;
    if s != [] && !StreamLe(s[|s| - 1], x) {
      var front, last := s[..|s| - 1], s[|s| - 1];
      assert s == front + [last];
      InsertRefused(rules, front, x);
      RefusedStep(rules, Insert(StreamLe, front, x), last);
      RefusedStep(rules, front, x);
      RefusedStep(rules, front, last);
      RefusedStep(rules, s, x);
    }
  }

  lemma {:induction false} SortRefused(rules: Rules, records: seq<StreamRecord>)
    ensures RefusedLetters(rules, Sort(StreamLe, records)) == RefusedLetters(rules, records)
  {
    hide RefusedLetters, StreamLe, Insert;
    if records != [] {
      var front, last := records[..|records| - 1], records[|records| - 1];
      assert records == front + [last];
      SortRefused(rules, front);
      InsertRefused(rules, Sort(StreamLe, front), last);
      RefusedStep(rules, Sort(StreamLe, front), last);
      RefusedStep(rules, front, last);
    }
  }

  /** Sorting by partition changes no letter. */
  lemma SortLetters(rules: Rules, records: seq<StreamRecord>)
    requires StreamOrdered(records)
    ensures StreamLetters(rules, records) == BatchLetters(rules, map[], records)
  {
    var sorted := Sort(StreamLe, records);
    var keys := KeysOf(rules, sorted) + KeysOf(rules, records);
    forall k ensures KeyPart(rules, map[], sorted, k) == KeyPart(rules, map[], records, k) {
      SortKeepsOrder(records, rules.home(k), r => Touches(rules, k, r));
    }
    hide KeyPart, Gathered, KeysOf, RefusedLetters, BatchLetters, Sort;
    GatheredSame(k => KeyPart(rules, map[], sorted, k), k => KeyPart(rules, map[], records, k), keys);
    LettersByKey(rules, map[], sorted, keys);
    LettersByKey(rules, map[], records, keys);
    SortRefused(rules, records);
  }

  /** Every way of cutting a stream into batches gives the same dead letters: those of the one-pass
      model. */
  lemma BatchingKeepsLetters(rules: Rules, batches: seq<seq<StreamRecord>>)
    requires StreamOrdered(Concat(batches))
    ensures BatchesLetters(rules, batches) == StreamLetters(rules, Concat(batches))
  {
    BatchesLettersAre(rules, batches);
    SortLetters(rules, Concat(batches));
  }

  /** No record is lettered twice. */
  lemma {:induction false} LettersBounded(rules: Rules, docs: Docs, records: seq<StreamRecord>)
    ensures BatchLetters(rules, docs, records) <= Origins(records)
    ensures |BatchLetters(rules, docs, records)| <= |records|
  {
    if records != [] {
      hide Lettered, Before;
      LettersBounded(rules, docs, records[..|records| - 1]);
    }
  }
}
