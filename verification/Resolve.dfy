/** Folding one key's ops, and a whole batch
    (crates/loams-collection/src/resolve.rs, `fold_key` and `resolve` of target.rs). */
module Resolve {
  import opened Prelude
  import opened PrimaryKeys
  import opened Documents

  /** A collection's partition rule and its document validator. */
  datatype Rules = Rules(home: PrimaryKey -> nat, valid: Document -> bool)

  datatype Origin = Origin(partition: nat, offset: nat)

  /** A record of the implicit stream; `op` is `None` when it does not decode. */
  datatype StreamRecord = StreamRecord(partition: nat, offset: nat, op: Option<DocOp>) {
    function At(): Origin { Origin(partition, offset) }
  }

  /** A document with the record that last wrote it: a row, or what a stream should fold to. */
  datatype StoredDoc = StoredDoc(doc: Document, partition: nat, offset: nat)

  // ---- resolve.rs ----

  /** Whether the first op is a patch, so folding may need the committed document. */
  function NeedsCurrent(ops: seq<StreamRecord>): bool {
    ops != [] && ops[0].op.Some? && ops[0].op.value.Patch?
  }

  /** It is exactly when the result of the first op depends on the document it is applied to. */
  lemma NeedsCurrentIff(ops: seq<StreamRecord>)
    ensures NeedsCurrent(ops) <==>
            && ops != [] && ops[0].op.Some?
            && exists a, b :: ApplyPatch(a, ops[0].op.value) != ApplyPatch(b, ops[0].op.value)
  {
    if NeedsCurrent(ops) {
      var a, b := Document(U64(0), map[], map[], map[]), Document(U64(1), map[], map[], map[]);
      var op := ops[0].op.value;
      assert ApplyPatch(Some(a), op).value.pk != ApplyPatch(Some(b), op).value.pk;
      assert ApplyPatch(Some(a), op) != ApplyPatch(Some(b), op);
    }
  }

  /** Latest-wins fold of one key's ops. */
  function Fold(current: Option<Document>, ops: seq<DocOp>): (r: Option<Document>)
  {
    if ops == [] then current
    else
      match ops[|ops| - 1]
      case Upsert(doc) => Some(doc)
      case Delete(_) => None
      case Patch(_, _, _, _, _, _, _) => ApplyPatch(Fold(current, ops[..|ops| - 1]), ops[|ops| - 1])
  }

  /** Folding one op applies it. */
  lemma FoldOne(current: Option<Document>, op: DocOp)
    ensures Fold(current, [op]) == ApplyPatch(current, op)
  {
    assert [op][..0] == [];
  }

  /** Folding may stop and go on at any op. */
  lemma {:induction false} FoldConcat(current: Option<Document>, a: seq<DocOp>, b: seq<DocOp>)
    ensures Fold(current, a + b) == Fold(Fold(current, a), b)
    decreases |b|
  {
    if b == [] {
      assert a + b == a;
    } else {
      FoldConcat(current, a, b[..|b| - 1]);
      assert (a + b)[..|a + b| - 1] == a + b[..|b| - 1];
    }
  }

  /** Latest wins: nothing before an upsert or a delete matters, neither the committed document nor
      earlier ops. */
  lemma FoldLatestWins(current: Option<Document>, before: seq<DocOp>, op: DocOp, after: seq<DocOp>)
    requires !op.Patch?
    ensures Fold(current, before + [op] + after) == Fold(if op.Upsert? then Some(op.doc) else None, after)
  {
    FoldConcat(current, before + [op], after);
    FoldConcat(current, before, [op]);
    FoldOne(Fold(current, before), op);
  }

  // ---- fold_key ----

  /** The state of one key while its ops fold: the document, the last writing op, the dead letters. */
  datatype KeyState = KeyState(doc: Option<Document>, written: Option<Origin>, letters: multiset<Origin>)

  function FoldOp(rules: Rules, s: KeyState, r: StreamRecord): KeyState {
    if r.op.None? then s
    else
      match r.op.value
      case Upsert(doc) => KeyState(Some(doc), Some(r.At()), s.letters)
      case Delete(_) => KeyState(None, None, s.letters)
      case Patch(_, _, _, _, _, _, _) =>
        match ApplyPatch(s.doc, r.op.value)
        case None => s
        case Some(next) =>
          if s.doc == Some(next) then s
          else if rules.valid(next) then KeyState(Some(next), Some(r.At()), s.letters)
          else s.(letters := s.letters + multiset{r.At()})
  }

  function FoldOps(rules: Rules, s: KeyState, ops: seq<StreamRecord>): (r: KeyState)
  {
    if ops == [] then s else FoldOp(rules, FoldOps(rules, s, ops[..|ops| - 1]), ops[|ops| - 1])
  }

  function OpsOf(records: seq<StreamRecord>): (r: seq<DocOp>)
    requires forall i :: 0 <= i < |records| ==> records[i].op.Some?
  {
    seq(|records|, i requires 0 <= i < |records| => records[i].op.value)
  }

  lemma {:induction false} LettersGrow(rules: Rules, s: KeyState, ops: seq<StreamRecord>)
    ensures s.letters <= FoldOps(rules, s, ops).letters
  {
    if ops != [] {
      hide ApplyPatch;
      LettersGrow(rules, s, ops[..|ops| - 1]);
    }
  }

  /** While no patch is dead-lettered, `fold_key` leaves what the plain fold of the ops leaves. */
  lemma {:induction false} FoldKeyFolds(rules: Rules, s: KeyState, ops: seq<StreamRecord>)
    requires forall i :: 0 <= i < |ops| ==> ops[i].op.Some?
    requires FoldOps(rules, s, ops).letters == s.letters
    ensures FoldOps(rules, s, ops).doc == Fold(s.doc, OpsOf(ops))
  {
    if ops != [] {
      var front, last := ops[..|ops| - 1], ops[|ops| - 1];
      LettersGrow(rules, s, front);
      OneLetterMore(rules, FoldOps(rules, s, front), last);
      FoldKeyFolds(rules, s, front);
      assert OpsOf(ops)[..|ops| - 1] == OpsOf(front);
    }
  }

  lemma OneLetterMore(rules: Rules, s: KeyState, r: StreamRecord)
    ensures s.letters <= FoldOp(rules, s, r).letters
    ensures FoldOp(rules, s, r).letters == s.letters && r.op.Some? ==>
              FoldOp(rules, s, r).doc == ApplyPatch(s.doc, r.op.value)
  {
  }

  /** What one key's ops leave. */
  datatype Outcome = Unchanged | Removed | Written(row: StoredDoc)

  function OutcomeOf(s: KeyState, hasRow: bool): Outcome {
    match (s.doc, s.written)
    case (Some(doc), Some(at)) => Written(StoredDoc(doc, at.partition, at.offset))
    case (Some(_), None) => Unchanged
    case (None, _) => if hasRow then Removed else Unchanged
  }

  method FoldKey(rules: Rules, current: Option<Document>, ops: seq<StreamRecord>, hasRow: bool)
    returns (outcome: Outcome, letters: multiset<Origin>)
    requires forall i :: 0 <= i < |ops| ==> ops[i].op.Some?
    ensures var s := FoldOps(rules, KeyState(current, None, multiset{}), ops);
            outcome == OutcomeOf(s, hasRow) && letters == s.letters
  {
    var state := current;
    var written: Option<Origin> := None;
    letters := multiset{};
    for i := 0 to |ops|
      invariant KeyState(state, written, letters)
             == FoldOps(rules, KeyState(current, None, multiset{}), ops[..i])
    {
      assert ops[..i + 1][..i] == ops[..i];
      var record := ops[i];
      FoldOne(state, record.op.value);
      match record.op.value {
        case Upsert(_) =>
          state := Fold(state, [record.op.value]);
          written := Some(record.At());
        case Delete(_) =>
          state := None;
          written := None;
        case Patch(_, _, _, _, _, _, _) =>
          var next := Fold(state, [record.op.value]);
          if next.Some? && state != next {
            if rules.valid(next.value) {
              state := next;
              written := Some(record.At());
            } else {
              letters := letters + multiset{record.At()};
            }
          }
      }
    }
    assert ops[..|ops|] == ops;
    outcome := match (state, written)
      case (Some(doc), Some(at)) => Written(StoredDoc(doc, at.partition, at.offset))
      case (Some(_), None) => Unchanged
      case (None, _) => if hasRow then Removed else Unchanged;
  }

  // ---- resolve ----

  /** A record dead-lettered before its key's ops are folded. */
  predicate Refused(rules: Rules, r: StreamRecord) {
    || r.op.None?
    || rules.home(r.op.value.Pk()) != r.partition
    || (r.op.value.Upsert? && !rules.valid(r.op.value.doc))
  }

  predicate Touches(rules: Rules, key: PrimaryKey, r: StreamRecord) {
    !Refused(rules, r) && r.op.value.Pk() == key
  }

  /** One key's ops of `records`, in their order. */
  function KeyOps(rules: Rules, records: seq<StreamRecord>, key: PrimaryKey): (r: seq<StreamRecord>)
  {
    Filter(r => Touches(rules, key, r), records)
  }

  /** The keys some accepted record of `records` names. */
  function KeysOf(rules: Rules, records: seq<StreamRecord>): set<PrimaryKey> {
    set i | 0 <= i < |records| && !Refused(rules, records[i]) :: records[i].op.value.Pk()
  }

  type RowId = nat

  /** The committed document a key's fold starts from: read only when the key has a row and its
      first op is a patch. */
  function ReadCurrent(
    rows: map<RowId, StoredDoc>, index: map<PrimaryKey, RowId>, ops: seq<StreamRecord>, key: PrimaryKey)
    : Result<Option<Document>, Corrupt>
  {
    if key in index && NeedsCurrent(ops) then
      if index[key] in rows && rows[index[key]].doc.pk == key
      then Ok(Some(rows[index[key]].doc)) else Err(Corrupt)
    else Ok(None)
  }

  /** How one key ends up, against the rows and the index a commit sees. */
  function KeyEnd(
    rules: Rules, rows: map<RowId, StoredDoc>, index: map<PrimaryKey, RowId>,
    records: seq<StreamRecord>, key: PrimaryKey)
    : Result<(Outcome, multiset<Origin>), Corrupt>
  {
    var ops := KeyOps(rules, records, key);
    match ReadCurrent(rows, index, ops, key)
    case Err(e) => Err(e)
    case Ok(current) => Ok(Ended(rules, records, key, current, key in index))
  }

  /** How one key ends up when its fold starts from `current`, and the letters of folding it. */
  function Ended(
    rules: Rules, records: seq<StreamRecord>, key: PrimaryKey, current: Option<Document>, hasRow: bool)
    : (Outcome, multiset<Origin>)
  {
    var s := FoldOps(rules, KeyState(current, None, multiset{}), KeyOps(rules, records, key));
    (OutcomeOf(s, hasRow), s.letters)
  }

  /** What a batch does: new rows by key, the old rows they and the deletes retire, by key, and the
      dead letters. */
  datatype Resolution = Resolution(
    inserts: map<PrimaryKey, StoredDoc>, retired: map<PrimaryKey, RowId>, letters: multiset<Origin>)

  /** `r` is the resolution of `records`, key by key. */
  ghost predicate Resolves(
    rules: Rules, rows: map<RowId, StoredDoc>, index: map<PrimaryKey, RowId>,
    records: seq<StreamRecord>, keys: set<PrimaryKey>, r: Resolution)
  {
    && r.inserts.Keys <= keys && r.retired.Keys <= keys
    && (forall k :: k in keys ==> KeyResolves(KeyEnd(rules, rows, index, records, k), index, k, r))
    && r.letters == RefusedLetters(rules, records) + KeyLetters(rules, rows, index, records, keys)
  }

  function Origins(records: seq<StreamRecord>): (r: multiset<Origin>)
  {
    if records == [] then multiset{}
    else Origins(records[..|records| - 1]) + multiset{records[|records| - 1].At()}
  }

  /** The letters of the refused records, one each. */
  function RefusedLetters(rules: Rules, records: seq<StreamRecord>): multiset<Origin> {
    Origins(Filter(r => Refused(rules, r), records))
  }

  function LettersOf(end: Result<(Outcome, multiset<Origin>), Corrupt>): multiset<Origin> {
    if end.Ok? then end.value.1 else multiset{}
  }

  /** The letters of folding `keys`, together. */
  ghost function KeyLetters(
    rules: Rules, rows: map<RowId, StoredDoc>, index: map<PrimaryKey, RowId>,
    records: seq<StreamRecord>, keys: set<PrimaryKey>)
    : (r: multiset<Origin>)
  {
    Gathered(k => LettersOf(KeyEnd(rules, rows, index, records, k)), keys)
  }

  lemma KeyLettersAdd(
    rules: Rules, rows: map<RowId, StoredDoc>, index: map<PrimaryKey, RowId>,
    records: seq<StreamRecord>, keys: set<PrimaryKey>, key: PrimaryKey)
    requires key !in keys
    ensures KeyLetters(rules, rows, index, records, keys + {key})
         == KeyLetters(rules, rows, index, records, keys) + LettersOf(KeyEnd(rules, rows, index, records, key))
  {
    hide KeyEnd, LettersOf, Gathered;
    GatheredAdd(k => LettersOf(KeyEnd(rules, rows, index, records, k)), keys, key);
  }

  ghost predicate KeyResolves(
    end: Result<(Outcome, multiset<Origin>), Corrupt>, index: map<PrimaryKey, RowId>, k: PrimaryKey, r: Resolution)
  {
    && end.Ok?
    && (k in r.inserts <==> end.value.0.Written?)
    && (k in r.inserts ==> r.inserts[k] == end.value.0.row)
    && (k in r.retired <==> !end.value.0.Unchanged? && k in index)
    && (k in r.retired ==> r.retired[k] == index[k])
  }

  lemma {:induction false} KeyOpsOfOther(rules: Rules, records: seq<StreamRecord>, key: PrimaryKey)
    requires key !in KeysOf(rules, records)
    ensures KeyOps(rules, records, key) == []
  {
    if records != [] {
      var n := |records| - 1;
      assert records[..n][..] == records[..n];
      forall k | k in KeysOf(rules, records[..n]) ensures k in KeysOf(rules, records) {
        var i :| 0 <= i < n && !Refused(rules, records[..n][i]) && records[..n][i].op.value.Pk() == k;
        assert records[i] == records[..n][i];
      }
      KeyOpsOfOther(rules, records[..n], key);
    }
  }

  /** `groups` holds every key's ops of `records`. */
  ghost predicate Grouped(rules: Rules, records: seq<StreamRecord>, groups: map<PrimaryKey, seq<StreamRecord>>) {
    groups.Keys == KeysOf(rules, records) && forall k :: k in groups ==> groups[k] == KeyOps(rules, records, k)
  }

  /** The first loop of `resolve`: the ops of every key, and the letters of refused records. */
  method GroupByKey(rules: Rules, records: seq<StreamRecord>)
    returns (groups: map<PrimaryKey, seq<StreamRecord>>, letters: multiset<Origin>)
    ensures Grouped(rules, records, groups)
    ensures letters == RefusedLetters(rules, records)
  {
    groups := map[];
    letters := multiset{};
    for i := 0 to |records|
      invariant Grouped(rules, records[..i], groups)
      invariant letters == RefusedLetters(rules, records[..i])
    {
      hide *;
      var record := records[i];
      RefusedStep(rules, records[..i], record);
      GroupStep(rules, records[..i], record, groups);
      assert records[..i + 1] == records[..i] + [record];
      if Refused(rules, record) {
        letters := letters + multiset{record.At()};
      } else {
        KeyOfAccepted(rules, record);
        var key := record.op.value.Pk();
        groups := groups[key := (if key in groups then groups[key] else []) + [record]];
      }
    }
    assert records[..|records|] == records;
  }

  lemma KeyOfAccepted(rules: Rules, r: StreamRecord)
    ensures !Refused(rules, r) ==> r.op.Some?
  {
  }

  lemma RefusedStep(rules: Rules, before: seq<StreamRecord>, r: StreamRecord)
    ensures RefusedLetters(rules, before + [r])
         == RefusedLetters(rules, before) + if Refused(rules, r) then multiset{r.At()} else multiset{}
  {
    var refused := r => Refused(rules, r);
    FilterStep(refused, before, r);
    var some := Filter(refused, before);
    assert (some + [r])[..|some|] == some;
    assert some + [] == some;
  }

  lemma GroupStep(
    rules: Rules, before: seq<StreamRecord>, r: StreamRecord, groups: map<PrimaryKey, seq<StreamRecord>>)
    requires Grouped(rules, before, groups)
    ensures Refused(rules, r) ==> Grouped(rules, before + [r], groups)
    ensures !Refused(rules, r) ==>
              var key := r.op.value.Pk();
              Grouped(rules, before + [r], groups[key := (if key in groups then groups[key] else []) + [r]])
  {
    hide KeysOf, KeyOps;
    KeysStep(rules, before, r);
    forall k ensures KeyOps(rules, before + [r], k)
                  == KeyOps(rules, before, k) + if Touches(rules, k, r) then [r] else []
    {
      KeyOpsStep(rules, before, r, k);
    }
    if !Refused(rules, r) && r.op.value.Pk() !in groups {
      KeyOpsOfOther(rules, before, r.op.value.Pk());
    }
  }

  lemma KeyOpsStep(rules: Rules, before: seq<StreamRecord>, r: StreamRecord, key: PrimaryKey)
    ensures KeyOps(rules, before + [r], key)
         == KeyOps(rules, before, key) + if Touches(rules, key, r) then [r] else []
  {
    FilterStep(r => Touches(rules, key, r), before, r);
  }

  lemma KeysStep(rules: Rules, before: seq<StreamRecord>, r: StreamRecord)
    ensures KeysOf(rules, before + [r])
         == KeysOf(rules, before) + if Refused(rules, r) then {} else {r.op.value.Pk()}
  {
    var after := before + [r];
    forall k | k in KeysOf(rules, before) ensures k in KeysOf(rules, after) {
      var j :| 0 <= j < |before| && !Refused(rules, before[j]) && before[j].op.value.Pk() == k;
      assert after[j] == before[j];
    }
    forall k | k in KeysOf(rules, after)
      ensures k in KeysOf(rules, before) || (!Refused(rules, r) && k == r.op.value.Pk())
    {
      var j :| 0 <= j < |after| && !Refused(rules, after[j]) && after[j].op.value.Pk() == k;
      if j < |before| { assert before[j] == after[j]; }
    }
    if !Refused(rules, r) {
      assert after[|before|].op.value.Pk() in KeysOf(rules, after);
    }
  }

  // ---- Every record is dead-lettered at most once ----

  lemma OriginsStep(records: seq<StreamRecord>, r: StreamRecord)
    ensures Origins(records + [r]) == Origins(records) + multiset{r.At()}
  {
    assert (records + [r])[..|records|] == records;
  }

  lemma {:induction false} FoldLetters(rules: Rules, s: KeyState, ops: seq<StreamRecord>)
    ensures FoldOps(rules, s, ops).letters <= s.letters + Origins(ops)
  {
    if ops != [] {
      hide ApplyPatch;
      FoldLetters(rules, s, ops[..|ops| - 1]);
    }
  }

  /** Records kept by one of two predicates, none by both. */
  lemma {:induction false} OriginsApart(
    p: StreamRecord -> bool, q: StreamRecord -> bool, pq: StreamRecord -> bool, records: seq<StreamRecord>)
    requires forall r :: pq(r) == (p(r) || q(r)) && !(p(r) && q(r))
    ensures Origins(Filter(p, records)) + Origins(Filter(q, records)) == Origins(Filter(pq, records))
  {
    if records != [] {
      hide Origins, Filter;
      var front, r := records[..|records| - 1], records[|records| - 1];
      assert records == front + [r];
      OriginsApart(p, q, pq, front);
      FilterOriginsStep(p, front, r);
      FilterOriginsStep(q, front, r);
      FilterOriginsStep(pq, front, r);
      AddOnce(
        Origins(Filter(p, front)), Origins(Filter(q, front)), Origins(Filter(pq, front)), r.At(), p(r), q(r));
    }
  }

  lemma AddOnce(a: multiset<Origin>, b: multiset<Origin>, c: multiset<Origin>, o: Origin, inA: bool, inB: bool)
    requires a + b == c && !(inA && inB)
    ensures a + (if inA then multiset{o} else multiset{}) + (b + (if inB then multiset{o} else multiset{}))
         == c + if inA || inB then multiset{o} else multiset{}
  {
  }

  lemma FilterOriginsStep(p: StreamRecord -> bool, records: seq<StreamRecord>, r: StreamRecord)
    ensures Origins(Filter(p, records + [r]))
         == Origins(Filter(p, records)) + if p(r) then multiset{r.At()} else multiset{}
  {
    hide Filter;
    FilterStep(p, records, r);
    OriginsStep(Filter(p, records), r);
    assert Filter(p, records) + [] == Filter(p, records);
  }

  predicate NamesOneOf(rules: Rules, keys: set<PrimaryKey>, r: StreamRecord) {
    !Refused(rules, r) && r.op.value.Pk() in keys
  }

  lemma {:induction false} KeyLettersFit(
    rules: Rules, rows: map<RowId, StoredDoc>, index: map<PrimaryKey, RowId>,
    records: seq<StreamRecord>, keys: set<PrimaryKey>)
    ensures KeyLetters(rules, rows, index, records, keys)
         <= Origins(Filter(r => NamesOneOf(rules, keys, r), records))
    decreases |keys|
  {
    if keys == {} {
      NoLetters(rules, rows, index, records);
    } else {
      hide Origins, Filter, KeyLetters, LettersOf, Gathered;
      var k :| k in keys;
      var rest := keys - {k};
      assert rest + {k} == keys;
      KeyLettersFit(rules, rows, index, records, rest);
      KeyLettersAdd(rules, rows, index, records, rest, k);
      EndLettersFit(rules, rows, index, records, k);
      OriginsApart(
        r => NamesOneOf(rules, rest, r), r => Touches(rules, k, r), r => NamesOneOf(rules, keys, r), records);
    }
  }

  lemma NoLetters(
    rules: Rules, rows: map<RowId, StoredDoc>, index: map<PrimaryKey, RowId>, records: seq<StreamRecord>)
    ensures KeyLetters(rules, rows, index, records, {}) == multiset{}
  {
  }

  lemma EndLettersFit(
    rules: Rules, rows: map<RowId, StoredDoc>, index: map<PrimaryKey, RowId>,
    records: seq<StreamRecord>, k: PrimaryKey)
    ensures LettersOf(KeyEnd(rules, rows, index, records, k)) <= Origins(Filter(r => Touches(rules, k, r), records))
  {
    hide Origins, Filter, FoldOps;
    var ops := KeyOps(rules, records, k);
    var current := ReadCurrent(rows, index, ops, k);
    if current.Ok? {
      FoldLetters(rules, KeyState(current.value, None, multiset{}), ops);
    }
  }

  /** A resolution dead-letters every record of its batch at most once. */
  lemma LettersFit(
    rules: Rules, rows: map<RowId, StoredDoc>, index: map<PrimaryKey, RowId>,
    records: seq<StreamRecord>, keys: set<PrimaryKey>, r: Resolution)
    requires Resolves(rules, rows, index, records, keys, r)
    ensures r.letters <= Origins(records) && |r.letters| <= |records|
  {
    hide Origins, Filter, KeyLetters, KeyEnd;
    KeyLettersFit(rules, rows, index, records, keys);
    var refused, named := r => Refused(rules, r), r => NamesOneOf(rules, keys, r);
    var either := r => Refused(rules, r) || NamesOneOf(rules, keys, r);
    OriginsApart(refused, named, either, records);
    OriginsApart(either, r => !either(r), r => true, records);
    FilterAll(records);
    OriginsSize(records);
    assert Origins(records) == r.letters + (Origins(records) - r.letters);
  }

  lemma {:induction false} FilterAll(records: seq<StreamRecord>)
    ensures Filter(r => true, records) == records
  {
    if records != [] {
      FilterAll(records[..|records| - 1]);
    }
  }

  lemma {:induction false} OriginsSize(records: seq<StreamRecord>)
    ensures |Origins(records)| == |records|
  {
    if records != [] {
      OriginsSize(records[..|records| - 1]);
    }
  }
}
