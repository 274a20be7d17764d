/** Writing ops to a collection's stream: grouping by partition and scattering the acknowledged
    offsets back (`CollectionWriter::write` of crates/loams-collection/src/writer.rs). */
module Writers {
  import opened Prelude
  import opened Tokens

  const MAX_WRITE_OPS: nat := 10_000

  /** Why an op is refused; some reasons a newer schema might lift. */
  datatype OpError = InvalidArgument | SchemaViolation | DynamicMappingRequired {
    predicate DependsOnSchema() { !InvalidArgument? }
  }

  /** An op after validation: its partition and record, or why not. */
  type Checked<R> = Result<(nat, R), OpError>

  datatype OpResult = Written(partition: nat, offset: nat) | Rejected(error: OpError)

  /** The offsets one batch of an append got. */
  datatype Ack = Ack(partition: nat, base: nat, last: nat)

  datatype Batch<R> = Batch(partition: nat, records: seq<R>)

  datatype WriteError = TooManyOps | LogFailed | CommitUnknown

  datatype WriteOutcome = WriteOutcome(token: Token, results: seq<OpResult>, schema: nat)

  // ---- What a write should do ----

  predicate GoesTo<R>(c: Checked<R>, p: nat) {
    c.Ok? && c.value.0 == p
  }

  /** The accepted ops of partition `p`: their indexes and records, in input order. */
  function Entries<R>(checked: seq<Checked<R>>, p: nat): (r: seq<(nat, R)>)
  {
    if checked == [] then []
    else
      var n := |checked| - 1;
      Entries(checked[..n], p) + if GoesTo(checked[n], p) then [(n, checked[n].value.1)] else []
  }

  /** How many ops before op `i` go to partition `p`. */
  function Rank<R>(checked: seq<Checked<R>>, p: nat, i: nat): nat
    requires i <= |checked|
  {
    |Entries(checked[..i], p)|
  }

  function Partitions<R>(checked: seq<Checked<R>>): set<nat> {
    set i | 0 <= i < |checked| && checked[i].Ok? :: checked[i].value.0
  }

  /** The result of op `i` when partition `p` starts at `base(p)`. */
  function Fate<R>(checked: seq<Checked<R>>, base: map<nat, nat>, i: nat): Option<OpResult>
    requires i < |checked|
  {
    match checked[i]
    case Err(e) => Some(Rejected(e))
    case Ok((p, _)) => if p in base then Some(Written(p, base[p] + Rank(checked, p, i))) else None
  }

  // ---- Entries ----

  lemma EntriesStep<R>(checked: seq<Checked<R>>, p: nat, i: nat)
    requires i < |checked|
    ensures Entries(checked[..i + 1], p)
         == Entries(checked[..i], p) + if GoesTo(checked[i], p) then [(i, checked[i].value.1)] else []
  {
    assert checked[..i + 1][..i] == checked[..i];
  }

  /** Entry `j` of a partition is an op of it, and the `j`th one. */
  lemma {:induction false} EntryRank<R>(checked: seq<Checked<R>>, p: nat, j: nat)
    requires j < |Entries(checked, p)|
    ensures var i := Entries(checked, p)[j].0;
            && i < |checked| && GoesTo(checked[i], p) && Rank(checked, p, i) == j
            && Entries(checked, p)[j].1 == checked[i].value.1
  {
    var n := |checked| - 1;
    var front := checked[..n];
    if j < |Entries(front, p)| {
      EntryRank(front, p, j);
      var i := Entries(front, p)[j].0;
      assert front[..i] == checked[..i];
    }
  }

  /** Every op of a partition is among its entries, at its rank. */
  lemma {:induction false} RankEntry<R>(checked: seq<Checked<R>>, p: nat, i: nat)
    requires i < |checked| && GoesTo(checked[i], p)
    ensures Rank(checked, p, i) < |Entries(checked, p)|
    ensures Entries(checked, p)[Rank(checked, p, i)] == (i, checked[i].value.1)
  {
    var n := |checked| - 1;
    assert checked[..n][..] == checked[..n];
    if i < n {
      RankEntry(checked[..n], p, i);
      assert checked[..n][..i] == checked[..i];
    }
  }

  lemma {:induction false} NoEntries<R>(checked: seq<Checked<R>>, p: nat)
    requires p !in Partitions(checked)
    ensures Entries(checked, p) == []
  {
    if checked != [] {
      var n := |checked| - 1;
      forall q | q in Partitions(checked[..n]) ensures q in Partitions(checked) {
        var i :| 0 <= i < n && checked[..n][i].Ok? && checked[..n][i].value.0 == q;
        assert checked[i].value.0 == q;
      }
      NoEntries(checked[..n], p);
    }
  }

  // ---- Grouping ----

  /** `groups` holds every partition's entries of `checked`. */
  ghost predicate Grouped<R>(checked: seq<Checked<R>>, groups: map<nat, seq<(nat, R)>>) {
    groups.Keys == Partitions(checked) && forall p :: p in groups ==> groups[p] == Entries(checked, p)
  }

  method Group<R>(checked: seq<Checked<R>>)
    returns (groups: map<nat, seq<(nat, R)>>, results: seq<Option<OpResult>>)
    ensures Grouped(checked, groups) && |results| == |checked|
    ensures forall i: nat :: i < |checked| ==> results[i] == Fate(checked, map[], i)
  {
    groups, results := map[], [];
    for i := 0 to |checked|
      invariant Grouped(checked[..i], groups) && |results| == i
      invariant forall j: nat :: j < i ==> results[j] == Fate(checked, map[], j)
    {
      GroupStep(checked, i, groups);
      match checked[i] {
        case Ok((p, record)) =>
          groups := groups[p := (if p in groups then groups[p] else []) + [(i, record)]];
          results := results + [None];
        case Err(error) =>
          results := results + [Some(Rejected(error))];
      }
    }
    assert checked[..|checked|] == checked;
  }

  lemma GroupStep<R>(checked: seq<Checked<R>>, i: nat, groups: map<nat, seq<(nat, R)>>)
    requires i < |checked| && Grouped(checked[..i], groups)
    ensures checked[i].Err? ==> Grouped(checked[..i + 1], groups)
    ensures checked[i].Ok? ==>
              var (p, record) := checked[i].value;
              Grouped(checked[..i + 1], groups[p := (if p in groups then groups[p] else []) + [(i, record)]])
  {
    PartitionsStep(checked, i);
    forall p ensures Entries(checked[..i + 1], p)
                  == Entries(checked[..i], p) + if GoesTo(checked[i], p) then [(i, checked[i].value.1)] else []
    {
      EntriesStep(checked, p, i);
    }
    if checked[i].Ok? && checked[i].value.0 !in groups {
      NoEntries(checked[..i], checked[i].value.0);
    }
    hide Entries, Partitions;
  }

  lemma PartitionsStep<R>(checked: seq<Checked<R>>, i: nat)
    requires i < |checked|
    ensures Partitions(checked[..i + 1])
         == Partitions(checked[..i]) + if checked[i].Ok? then {checked[i].value.0} else {}
  {
    var before, after := checked[..i], checked[..i + 1];
    forall q | q in Partitions(before) ensures q in Partitions(after) {
      var j :| 0 <= j < i && before[j].Ok? && before[j].value.0 == q;
      assert after[j] == before[j];
    }
    forall q | q in Partitions(after)
      ensures q in Partitions(before) || (checked[i].Ok? && q == checked[i].value.0)
    {
      var j :| 0 <= j < i + 1 && after[j].Ok? && after[j].value.0 == q;
      if j < i { assert before[j] == after[j]; }
    }
    if checked[i].Ok? { assert after[i].value.0 in Partitions(after); }
  }

  // ---- Scattering ----

  function Indexes<R>(entries: seq<(nat, R)>): (r: seq<nat>)
    ensures |r| == |entries| && forall j :: 0 <= j < |entries| ==> r[j] == entries[j].0
  {
    seq(|entries|, j requires 0 <= j < |entries| => entries[j].0)
  }

  function Records<R>(entries: seq<(nat, R)>): (r: seq<R>)
    ensures |r| == |entries| && forall j :: 0 <= j < |entries| ==> r[j] == entries[j].1
  {
    seq(|entries|, j requires 0 <= j < |entries| => entries[j].1)
  }

  /** One ack: every op of its batch gets the next offset. */
  method ScatterOne<R>(
    ghost checked: seq<Checked<R>>, before: seq<Option<OpResult>>, p: nat, base: nat, indexes: seq<nat>,
    ghost bases: map<nat, nat>)
    returns (results: seq<Option<OpResult>>)
    requires |before| == |checked| && indexes == Indexes(Entries(checked, p)) && p !in bases
    requires forall i: nat :: i < |checked| ==> before[i] == Fate(checked, bases, i)
    ensures |results| == |checked|
    ensures forall i: nat :: i < |checked| ==> results[i] == Fate(checked, bases[p := base], i)
  {
    results := before;
    for j := 0 to |indexes|
      invariant |results| == |checked|
      invariant forall i: nat :: i < |checked| ==>
                  results[i] == if GoesTo(checked[i], p) && Rank(checked, p, i) >= j then None
                                else Fate(checked, bases[p := base], i)
    {
      EntryRank(checked, p, j);
      var index := indexes[j];
      forall i: nat | i < |checked| && GoesTo(checked[i], p) && Rank(checked, p, i) == j ensures i == index {
        RankEntry(checked, p, i);
      }
      hide Entries;
      results := results[index := Some(Written(p, base + j))];
    }
    forall i: nat | i < |checked| && GoesTo(checked[i], p) ensures Rank(checked, p, i) < |indexes| {
      RankEntry(checked, p, i);
    }
  }

  // ---- The append ----

  /** One batch a partition, holding its records, and beside it the indexes of its ops. */
  ghost predicate BatchesFor<R>(
    checked: seq<Checked<R>>, parts: set<nat>, batches: seq<Batch<R>>, positions: seq<seq<nat>>)
  {
    && |positions| == |batches|
    && (forall p :: p in parts <==> exists k :: 0 <= k < |batches| && batches[k].partition == p)
    && (forall k :: 0 <= k < |batches| ==> BatchFor(checked, batches[k], positions[k]))
    && (forall k, l :: 0 <= k < l < |batches| ==> batches[k].partition != batches[l].partition)
  }

  ghost predicate BatchFor<R>(checked: seq<Checked<R>>, batch: Batch<R>, indexes: seq<nat>) {
    var entries := Entries(checked, batch.partition);
    batch.records == Records(entries) && indexes == Indexes(entries)
  }

  method MakeBatches<R>(ghost checked: seq<Checked<R>>, groups: map<nat, seq<(nat, R)>>)
    returns (batches: seq<Batch<R>>, positions: seq<seq<nat>>)
    requires Grouped(checked, groups)
    ensures BatchesFor(checked, Partitions(checked), batches, positions)
  {
    batches, positions := [], [];
    var todo := groups.Keys;
    while todo != {}
      invariant todo <= groups.Keys && BatchesFor(checked, groups.Keys - todo, batches, positions)
      decreases todo
    {
      hide Partitions, Entries, BatchesFor;
      var p :| p in todo;
      var batch, indexes := Batch(p, Records(groups[p])), Indexes(groups[p]);
      OneMoreBatch(checked, groups.Keys - todo, batches, positions, batch, indexes);
      assert groups.Keys - todo + {p} == groups.Keys - (todo - {p});
      batches, positions := batches + [batch], positions + [indexes];
      todo := todo - {p};
    }
    assert groups.Keys - todo == groups.Keys;
  }

  lemma OneMoreBatch<R>(
    checked: seq<Checked<R>>, parts: set<nat>, batches: seq<Batch<R>>, positions: seq<seq<nat>>, batch: Batch<R>,
    indexes: seq<nat>)
    requires BatchesFor(checked, parts, batches, positions) && batch.partition !in parts
    requires BatchFor(checked, batch, indexes)
    ensures BatchesFor(checked, parts + {batch.partition}, batches + [batch], positions + [indexes])
  {
    hide BatchFor;
    var all := batches + [batch];
    forall p
      ensures p in parts + {batch.partition} <==> exists k :: 0 <= k < |all| && all[k].partition == p
    {
      if p in parts {
        var k :| 0 <= k < |batches| && batches[k].partition == p;
        assert all[k].partition == p;
      }
      if p == batch.partition { assert all[|batches|].partition == p; }
      if k :| 0 <= k < |all| && all[k].partition == p {
        if k < |batches| { assert batches[k].partition == p; }
      }
    }
  }

  /** Acks in batch order, each covering its batch; an ack may be missing at the end. */
  ghost predicate AcksCover<R>(batches: seq<Batch<R>>, acks: seq<Ack>) {
    && |acks| <= |batches|
    && forall k :: 0 <= k < |acks| ==>
         acks[k].partition == batches[k].partition && acks[k].last + 1 == acks[k].base + |batches[k].records|
  }

  /** The token has, for every partition with an ack, the offset after its last record. */
  ghost predicate TokenFor<R>(token: Token, stream: nat, checked: seq<Checked<R>>, bases: map<nat, nat>) {
    forall pair :: Offset(token, pair) ==
      if pair.0 == stream && pair.1 in bases then Some(bases[pair.1] + |Entries(checked, pair.1)|) else None
  }

  lemma TokenStep<R>(
    token: Token, stream: nat, checked: seq<Checked<R>>, bases: map<nat, nat>, p: nat, base: nat, next: nat)
    requires TokenFor(token, stream, checked, bases) && p !in bases && next == base + |Entries(checked, p)|
    ensures TokenFor(token + [Item(stream, p, next)], stream, checked, bases[p := base])
  {
    hide Entries, Offset;
    forall pair ensures Offset(token + [Item(stream, p, next)], pair) ==
      if pair.0 == stream && pair.1 in bases[p := base] then Some(bases[p := base][pair.1] + |Entries(checked, pair.1)|)
      else None
    {
      OffsetStep(token, Item(stream, p, next), pair);
    }
  }

  /** The loop over the acks. */
  method Scatter<R>(
    ghost checked: seq<Checked<R>>, stream: nat, before: seq<Option<OpResult>>, ghost batches: seq<Batch<R>>,
    positions: seq<seq<nat>>, acks: seq<Ack>)
    returns (results: seq<Option<OpResult>>, token: Token, ghost bases: map<nat, nat>)
    requires |before| == |checked| && forall i: nat :: i < |checked| ==> before[i] == Fate(checked, map[], i)
    requires BatchesFor(checked, Partitions(checked), batches, positions) && AcksCover(batches, acks)
    ensures |results| == |checked| && forall i: nat :: i < |checked| ==> results[i] == Fate(checked, bases, i)
    ensures bases.Keys <= Partitions(checked) && (|acks| == |batches| ==> bases.Keys == Partitions(checked))
    ensures Based(bases, acks) && TokenFor(token, stream, checked, bases) && Normal(token)
  {
    hide Entries, Partitions, Offset, Fate, Based;
    results, token, bases := before, [], map[];
    NoToken(stream, checked);
    BasedNone(acks);
    for k := 0 to |acks|
      invariant |results| == |checked| && forall i: nat :: i < |checked| ==> results[i] == Fate(checked, bases, i)
      invariant forall p :: p in bases <==> exists l :: 0 <= l < k && batches[l].partition == p
      invariant TokenFor(token, stream, checked, bases) && Based(bases, acks[..k])
    {
      var ack := acks[k];
      BasedMore(bases, acks, k);
      assert BatchFor(checked, batches[k], positions[k]);
      TokenStep(token, stream, checked, bases, ack.partition, ack.base, ack.last + 1);
      results := ScatterOne(checked, results, ack.partition, ack.base, positions[k], bases);
      bases := bases[ack.partition := ack.base];
      token := token + [Item(stream, ack.partition, ack.last + 1)];
    }
    assert acks[..|acks|] == acks;
    NormalizedIsNormal(token);
    token := Normalize(token);
  }

  /** `bases` are the first offsets the acks name. */
  ghost predicate Based(bases: map<nat, nat>, acks: seq<Ack>) {
    && (forall k :: 0 <= k < |acks| ==> acks[k].partition in bases && bases[acks[k].partition] == acks[k].base)
    && (forall p :: p in bases ==> exists k :: 0 <= k < |acks| && acks[k].partition == p)
  }

  lemma BasedNone(acks: seq<Ack>)
    ensures Based(map[], acks[..0])
  {
  }

  lemma BasedMore(bases: map<nat, nat>, acks: seq<Ack>, k: nat)
    requires k < |acks| && Based(bases, acks[..k]) && acks[k].partition !in bases
    ensures Based(bases[acks[k].partition := acks[k].base], acks[..k + 1])
  {
    var before, after := acks[..k], acks[..k + 1];
    var more := bases[acks[k].partition := acks[k].base];
    forall p | p in more ensures exists l :: 0 <= l < |after| && after[l].partition == p {
      if p == acks[k].partition {
        assert after[k].partition == p;
      } else {
        var l :| 0 <= l < |before| && before[l].partition == p;
        assert after[l].partition == p;
      }
    }
    forall l | 0 <= l < |after| ensures after[l].partition in more && more[after[l].partition] == after[l].base {
      if l < k { assert before[l] == after[l]; }
    }
  }

  // ---- What was sent, and where it landed ----

  /** Record `j` of batch `k` is `record`, and `result` says where the log put it. */
  ghost predicate LandedAt<R>(
    sent: seq<Batch<R>>, acks: seq<Ack>, p: nat, record: R, result: OpResult, k: int, j: int)
  {
    && 0 <= k < |sent| && k < |acks| && sent[k].partition == acks[k].partition == p
    && 0 <= j < |sent[k].records| && sent[k].records[j] == record && result == Written(p, acks[k].base + j)
  }

  /** A refused op is rejected for its reason; an accepted one was sent to its partition, and its result
      is the offset the log gave it. */
  ghost predicate OpLanded<R>(c: Checked<R>, sent: seq<Batch<R>>, acks: seq<Ack>, result: OpResult) {
    match c
    case Err(e) => result == Rejected(e)
    case Ok((p, record)) => exists k, j :: LandedAt(sent, acks, p, record, result, k, j)
  }

  /** Record `j` of batch `k` is the record of some op, whose result says so. */
  ghost predicate RecordSent<R>(
    checked: seq<Checked<R>>, sent: seq<Batch<R>>, acks: seq<Ack>, results: seq<OpResult>, k: nat, j: nat)
    requires |results| == |checked| && k < |sent|
  {
    exists i :: 0 <= i < |checked| && checked[i].Ok?
      && LandedAt(sent, acks, checked[i].value.0, checked[i].value.1, results[i], k, j)
  }

  /** Every accepted op is in the log once, at the offset its result names, and nothing else was sent. */
  ghost predicate Delivered<R>(
    checked: seq<Checked<R>>, sent: seq<Batch<R>>, acks: seq<Ack>, results: seq<OpResult>)
  {
    && |acks| == |sent| && |results| == |checked|
    && (forall k, l :: 0 <= k < l < |sent| ==> sent[k].partition != sent[l].partition)
    && (forall i :: 0 <= i < |checked| ==> OpLanded(checked[i], sent, acks, results[i]))
    && (forall k: nat, j: nat :: k < |sent| && j < |sent[k].records| ==>
          RecordSent(checked, sent, acks, results, k, j))
  }

  /** The token holds, for every batch, the offset after its last record, and nothing else. */
  ghost predicate TokenOf(token: Token, stream: nat, acks: seq<Ack>) {
    && (forall k :: 0 <= k < |acks| ==> Offset(token, (stream, acks[k].partition)) == Some(acks[k].last + 1))
    && (forall pair: (nat, nat) :: Offset(token, pair).Some? ==>
          pair.0 == stream && exists k :: 0 <= k < |acks| && acks[k].partition == pair.1)
  }

  lemma OpLands<R>(
    checked: seq<Checked<R>>, sent: seq<Batch<R>>, positions: seq<seq<nat>>, acks: seq<Ack>, bases: map<nat, nat>,
    i: nat, result: OpResult)
    requires BatchesFor(checked, Partitions(checked), sent, positions) && AcksCover(sent, acks) && |acks| == |sent|
    requires Based(bases, acks) && i < |checked| && Some(result) == Fate(checked, bases, i)
    ensures OpLanded(checked[i], sent, acks, result)
  {
    hide Entries, Partitions;
    if checked[i].Ok? {
      var (p, record) := checked[i].value;
      var k :| 0 <= k < |acks| && acks[k].partition == p;
      assert BatchFor(checked, sent[k], positions[k]);
      RankEntry(checked, p, i);
      assert LandedAt(sent, acks, p, record, result, k, Rank(checked, p, i));
    }
  }

  lemma RecordLands<R>(
    checked: seq<Checked<R>>, sent: seq<Batch<R>>, positions: seq<seq<nat>>, acks: seq<Ack>, bases: map<nat, nat>,
    results: seq<OpResult>, k: nat, j: nat)
    requires BatchesFor(checked, Partitions(checked), sent, positions) && AcksCover(sent, acks) && |acks| == |sent|
    requires Based(bases, acks) && |results| == |checked| && k < |sent| && j < |sent[k].records|
    requires forall i: nat :: i < |checked| ==> Some(results[i]) == Fate(checked, bases, i)
    ensures RecordSent(checked, sent, acks, results, k, j)
  {
    hide Entries, Partitions;
    assert BatchFor(checked, sent[k], positions[k]);
    var p := sent[k].partition;
    EntryRank(checked, p, j);
    var i := Entries(checked, p)[j].0;
    assert Some(results[i]) == Fate(checked, bases, i);
    assert LandedAt(sent, acks, p, checked[i].value.1, results[i], k, j);
  }

  lemma AreDelivered<R>(
    checked: seq<Checked<R>>, sent: seq<Batch<R>>, positions: seq<seq<nat>>, acks: seq<Ack>, bases: map<nat, nat>,
    results: seq<OpResult>)
    requires BatchesFor(checked, Partitions(checked), sent, positions) && AcksCover(sent, acks) && |acks| == |sent|
    requires Based(bases, acks) && |results| == |checked|
    requires forall i: nat :: i < |checked| ==> Some(results[i]) == Fate(checked, bases, i)
    ensures Delivered(checked, sent, acks, results)
  {
    hide Entries, Partitions, Fate, AcksCover, OpLanded, RecordSent, Based, BatchFor;
    forall i | 0 <= i < |checked| ensures OpLanded(checked[i], sent, acks, results[i]) {
      OpLands(checked, sent, positions, acks, bases, i, results[i]);
    }
    forall k: nat, j: nat | k < |sent| && j < |sent[k].records|
      ensures RecordSent(checked, sent, acks, results, k, j)
    {
      RecordLands(checked, sent, positions, acks, bases, results, k, j);
    }
  }

  lemma IsTokenOf<R>(
    checked: seq<Checked<R>>, sent: seq<Batch<R>>, positions: seq<seq<nat>>, acks: seq<Ack>, bases: map<nat, nat>,
    token: Token, stream: nat)
    requires BatchesFor(checked, Partitions(checked), sent, positions) && AcksCover(sent, acks) && Based(bases, acks)
    requires TokenFor(token, stream, checked, bases)
    ensures TokenOf(token, stream, acks)
  {
    hide Entries, Partitions, Offset;
    forall k | 0 <= k < |acks| ensures Offset(token, (stream, acks[k].partition)) == Some(acks[k].last + 1) {
      assert BatchFor(checked, sent[k], positions[k]);
    }
  }

  lemma NoToken<R>(stream: nat, checked: seq<Checked<R>>)
    ensures TokenFor([], stream, checked, map[])
  {
  }

  // ---- write ----

  function CheckAll<O, R>(check: (nat, O) -> Checked<R>, schema: nat, ops: seq<O>): (r: seq<Checked<R>>)
    ensures |r| == |ops| && forall i :: 0 <= i < |ops| ==> r[i] == check(schema, ops[i])
  {
    seq(|ops|, i requires 0 <= i < |ops| => check(schema, ops[i]))
  }

  /** Refused for the schema: a reason other than an invalid argument. */
  predicate Liftable<R>(c: Checked<R>) {
    c.Err? && !c.error.InvalidArgument?
  }

  predicate SchemaDependent<R>(checked: seq<Checked<R>>) {
    exists i :: 0 <= i < |checked| && checked[i].Err? && checked[i].error.DependsOnSchema()
  }

  /** One result an op, in input order: rejected exactly if its check failed, else written to its
      partition at the next offset of that partition; and a token past every written offset. */
  ghost predicate WroteAll<O, R>(
    check: (nat, O) -> Checked<R>, ops: seq<O>, stream: nat, outcome: WriteOutcome, bases: map<nat, nat>)
  {
    var checked := CheckAll(check, outcome.schema, ops);
    && |outcome.results| == |ops|
    && (forall i: nat :: i < |ops| ==> Some(outcome.results[i]) == Fate(checked, bases, i))
    && bases.Keys == Partitions(checked)
    && TokenFor(outcome.token, stream, checked, bases) && Normal(outcome.token)
  }

  method Write<O, R(!new)>(
    check: (nat, O) -> Checked<R>, local: nat, linear: nat, ops: seq<O>, stream: nat,
    append: seq<Batch<R>> -> Option<seq<Ack>>)
    returns (r: Result<WriteOutcome, WriteError>, ghost bases: map<nat, nat>, ghost sent: seq<Batch<R>>)
    requires forall batches :: append(batches).Some? ==> AcksCover(batches, append(batches).value)
    ensures r == Err(TooManyOps) <==> |ops| > MAX_WRITE_OPS
    ensures r.Ok? ==>
              r.value.schema == if linear > local && (exists i :: 0 <= i < |ops| && Liftable(check(local, ops[i])))
                                then linear else local
    ensures r.Ok? ==> WroteAll(check, ops, stream, r.value, bases)
    ensures |ops| <= MAX_WRITE_OPS ==>
              if sent != [] && append(sent).None? then r == Err(LogFailed)
              else if sent != [] && |append(sent).value| < |sent| then r == Err(CommitUnknown)
              else r.Ok?
    ensures r.Ok? ==>
              var acks := if sent == [] then [] else append(sent).value;
              && Delivered(CheckAll(check, r.value.schema, ops), sent, acks, r.value.results)
              && TokenOf(r.value.token, stream, acks)
  {
    hide Entries, Partitions, TokenFor, BatchesFor, Grouped, AcksCover, TokenOf, Delivered, Based;
    bases, sent := map[], [];
    if |ops| > MAX_WRITE_OPS {
      return Err(TooManyOps), bases, sent;
    }
    var schema := local;
    var checked := CheckAll(check, local, ops);
    LiftableIs(check, local, ops);
    if SchemaDependent(checked) && linear > local {
      schema := linear;
      checked := CheckAll(check, linear, ops);
    }
    var groups, results := Group(checked);
    var token: Token := [];
    NoToken(stream, checked);
    var batches, positions, acks := [], [], [];
    NothingSent(checked, groups);
    if groups != map[] {
      batches, positions := MakeBatches(checked, groups);
      SomethingSent(checked, groups, batches, positions);
      sent := batches;
      var appended := append(batches);
      if appended.None? {
        return Err(LogFailed), bases, sent;
      }
      acks := appended.value;
      results, token, bases := Scatter(checked, stream, results, batches, positions, acks);
    }
    CoverSize(batches, acks);
    FatesKnown(checked, bases, results);
    var all := Collect(results);
    if all.None? {
      return Err(CommitUnknown), bases, sent;
    }
    AllPartitions(checked, bases, results);
    AcksComplete(checked, batches, positions, acks, bases);
    AreDelivered(checked, batches, positions, acks, bases, all.value);
    IsTokenOf(checked, batches, positions, acks, bases, token, stream);
    r := Ok(WriteOutcome(token, all.value, schema));
  }

  lemma LiftableIs<O, R>(check: (nat, O) -> Checked<R>, local: nat, ops: seq<O>)
    ensures SchemaDependent(CheckAll(check, local, ops)) <==>
            exists i :: 0 <= i < |ops| && Liftable(check(local, ops[i]))
  {
    var checked := CheckAll(check, local, ops);
    if SchemaDependent(checked) {
      var i :| 0 <= i < |checked| && checked[i].Err? && checked[i].error.DependsOnSchema();
      assert Liftable(check(local, ops[i]));
    }
    if i :| 0 <= i < |ops| && Liftable(check(local, ops[i])) {
      assert checked[i].error.DependsOnSchema();
    }
  }

  lemma NothingSent<R>(checked: seq<Checked<R>>, groups: map<nat, seq<(nat, R)>>)
    requires Grouped(checked, groups)
    ensures groups == map[] ==> BatchesFor<R>(checked, Partitions(checked), [], []) && Partitions(checked) == {}
    ensures AcksCover<R>([], []) && Based(map[], [])
  {
  }

  lemma SomethingSent<R>(
    checked: seq<Checked<R>>, groups: map<nat, seq<(nat, R)>>, batches: seq<Batch<R>>, positions: seq<seq<nat>>)
    requires Grouped(checked, groups) && groups != map[]
    requires BatchesFor(checked, Partitions(checked), batches, positions)
    ensures batches != []
  {
    hide Entries, BatchFor;
    var p :| p in groups;
    assert p in Partitions(checked);
  }

  /** When every partition has its ack, every batch has. */
  lemma AcksComplete<R>(
    checked: seq<Checked<R>>, batches: seq<Batch<R>>, positions: seq<seq<nat>>, acks: seq<Ack>,
    bases: map<nat, nat>)
    requires BatchesFor(checked, Partitions(checked), batches, positions) && AcksCover(batches, acks)
    requires Based(bases, acks) && bases.Keys == Partitions(checked)
    ensures |acks| == |batches|
  {
    hide Entries, BatchFor, Partitions;
    if batches != [] {
      var l := |batches| - 1;
      assert batches[l].partition in Partitions(checked);
      var k :| 0 <= k < |acks| && acks[k].partition == batches[l].partition;
      assert batches[k].partition == batches[l].partition;
    }
  }

  lemma CoverSize<R>(batches: seq<Batch<R>>, acks: seq<Ack>)
    requires AcksCover(batches, acks)
    ensures |acks| <= |batches|
  {
  }

  lemma FatesKnown<R>(checked: seq<Checked<R>>, bases: map<nat, nat>, results: seq<Option<OpResult>>)
    requires |results| == |checked|
    requires forall i: nat :: i < |checked| ==> results[i] == Fate(checked, bases, i)
    ensures bases.Keys == Partitions(checked) ==> forall i :: 0 <= i < |results| ==> results[i].Some?
  {
    hide Rank;
    forall i | 0 <= i < |results| && bases.Keys == Partitions(checked) ensures results[i].Some? {
      if checked[i].Ok? { assert checked[i].value.0 in Partitions(checked); }
      assert results[i] == Fate(checked, bases, i);
    }
  }

  /** When every op has its result, every partition has its ack. */
  lemma AllPartitions<R>(checked: seq<Checked<R>>, bases: map<nat, nat>, results: seq<Option<OpResult>>)
    requires |results| == |checked| && bases.Keys <= Partitions(checked)
    requires forall i: nat :: i < |checked| ==> results[i] == Fate(checked, bases, i) && results[i].Some?
    ensures bases.Keys == Partitions(checked)
  {
    hide Rank;
    forall p | p in Partitions(checked) ensures p in bases {
      var i: nat :| i < |checked| && checked[i].Ok? && checked[i].value.0 == p;
      assert results[i] == Fate(checked, bases, i);
    }
  }

  /** A written offset lies below the token's offset of its partition. */
  lemma TokenPastOffsets<O, R>(
    check: (nat, O) -> Checked<R>, ops: seq<O>, stream: nat, outcome: WriteOutcome, bases: map<nat, nat>, i: nat)
    requires WroteAll(check, ops, stream, outcome, bases) && i < |ops| && outcome.results[i].Written?
    ensures var w := outcome.results[i];
            Offset(outcome.token, (stream, w.partition)).Some?
            && w.offset < Offset(outcome.token, (stream, w.partition)).value
  {
    hide Entries, Offset;
    var checked := CheckAll(check, outcome.schema, ops);
    var w := outcome.results[i];
    assert Some(w) == Fate(checked, bases, i);
    RankEntry(checked, w.partition, i);
  }

  lemma OneResultEach<O, R>(
    check: (nat, O) -> Checked<R>, ops: seq<O>, stream: nat, outcome: WriteOutcome, bases: map<nat, nat>)
    requires WroteAll(check, ops, stream, outcome, bases)
    ensures |outcome.results| == |ops|
  {
  }

  /** The token's offset of a partition is the one after the last offset written there. */
  lemma TokenIsNext<O, R>(
    check: (nat, O) -> Checked<R>, ops: seq<O>, stream: nat, outcome: WriteOutcome, bases: map<nat, nat>, p: nat)
    returns (i: nat)
    requires WroteAll(check, ops, stream, outcome, bases) && Offset(outcome.token, (stream, p)).Some?
    ensures i < |ops| && outcome.results[i].Written? && outcome.results[i].partition == p
    ensures Offset(outcome.token, (stream, p)) == Some(outcome.results[i].offset + 1)
  {
    hide Entries, Offset;
    var checked := CheckAll(check, outcome.schema, ops);
    assert Offset(outcome.token, (stream, p)) == Some(bases[p] + |Entries(checked, p)|);
    var first: nat :| first < |checked| && checked[first].Ok? && checked[first].value.0 == p;
    RankEntry(checked, p, first);
    EntryRank(checked, p, |Entries(checked, p)| - 1);
    i := Entries(checked, p)[|Entries(checked, p)| - 1].0;
    assert Some(outcome.results[i]) == Fate(checked, bases, i);
  }

  /** Within a partition, offsets follow the input order without gaps or repeats: the next op of the
      partition gets the next offset. */
  lemma OffsetsFollowInput<O, R>(
    check: (nat, O) -> Checked<R>, ops: seq<O>, stream: nat, outcome: WriteOutcome, bases: map<nat, nat>, i: nat,
        j: nat)
    requires WroteAll(check, ops, stream, outcome, bases) && i < j < |ops|
    requires outcome.results[i].Written? && outcome.results[j].Written?
    requires outcome.results[i].partition == outcome.results[j].partition
    requires forall k :: i < k < j && outcome.results[k].Written? ==>
               outcome.results[k].partition != outcome.results[i].partition
    ensures outcome.results[j].offset == outcome.results[i].offset + 1
  {
    hide Entries, TokenFor;
    var checked := CheckAll(check, outcome.schema, ops);
    var p := outcome.results[i].partition;
    assert Some(outcome.results[i]) == Fate(checked, bases, i) && Some(outcome.results[j]) == Fate(checked, bases, j);
    forall k: nat | i < k < j ensures !GoesTo(checked[k], p) {
      assert Some(outcome.results[k]) == Fate(checked, bases, k);
    }
    RankGrows(checked, p, i, j);
  }

  lemma {:induction false} RankGrows<R>(checked: seq<Checked<R>>, p: nat, i: nat, j: nat)
    requires i < j <= |checked| && GoesTo(checked[i], p)
    requires forall k: nat :: i < k < j ==> !GoesTo(checked[k], p)
    ensures Rank(checked, p, j) == Rank(checked, p, i) + 1
    decreases j
  {
    EntriesStep(checked, p, j - 1);
    if i < j - 1 {
      RankGrows(checked, p, i, j - 1);
    }
  }

  /** All results, unless one is missing. */
  method Collect(results: seq<Option<OpResult>>) returns (all: Option<seq<OpResult>>)
    ensures all.Some? <==> forall i :: 0 <= i < |results| ==> results[i].Some?
    ensures all.Some? ==>
              |all.value| == |results| && forall i :: 0 <= i < |results| ==> results[i] == Some(all.value[i])
  {
    var some := [];
    for i := 0 to |results|
      invariant |some| == i && forall j :: 0 <= j < i ==> results[j] == Some(some[j])
    {
      if results[i].None? {
        return None;
      }
      some := some + [results[i].value];
    }
    all := Some(some);
  }
}
