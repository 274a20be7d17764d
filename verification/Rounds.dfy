/** Resolving a batch in rounds of lookups: the rows a round needs are read at once, and each is taken
    by the first key that names it (the second loop of `resolve` in
    crates/loams-collection/src/target.rs). */
module Rounds {
  import opened Prelude
  import opened KeyOrders
  import opened PrimaryKeys
  import opened Documents
  import opened Resolve
  import opened RowSets

  /** The document each key's fold started from. */
  type Starts = map<PrimaryKey, Option<Document>>

  // ---- What the keys of a batch read ----

  /** Another key of `keys` has the row of `key` too. */
  ghost predicate Shares(index: KeyMap, keys: set<PrimaryKey>, key: PrimaryKey) {
    key in index && exists other :: other in keys && other != key && other in index && index[other] == index[key]
  }

  /** The index gives no two of `keys` the same row. */
  ghost predicate Unshared(index: KeyMap, keys: set<PrimaryKey>) {
    forall k :: k in keys ==> !Shares(index, keys, k)
  }

  /** Folding `key` needs its committed document, and the index has a row for it. */
  predicate Wants(rules: Rules, index: KeyMap, records: seq<StreamRecord>, key: PrimaryKey) {
    key in index && NeedsCurrent(KeyOps(rules, records, key))
  }

  /** `start` is a document that `key` may have read: only its own, from its row; and it was read when
      it was needed, unless another key has the same row. */
  ghost predicate MayStart(
    rules: Rules, rows: RowSet, index: KeyMap, records: seq<StreamRecord>, keys: set<PrimaryKey>, key: PrimaryKey,
    start: Option<Document>)
  {
    && (start.Some? ==>
          && key in index && index[key] in rows && start.value == rows[index[key]].doc && start.value.pk == key
          && (Wants(rules, index, records, key) || Shares(index, keys, key)))
    && (Wants(rules, index, records, key) ==> index[key] in rows && (start.Some? || Shares(index, keys, key)))
  }

  /** The index names a row that is not there, or another key's. */
  ghost predicate BadRead(
    rules: Rules, rows: RowSet, index: KeyMap, records: seq<StreamRecord>, keys: set<PrimaryKey>, key: PrimaryKey)
  {
    && key in index
    && if index[key] in rows
       then rows[index[key]].doc.pk != key && (Wants(rules, index, records, key) || Shares(index, keys, key))
       else Wants(rules, index, records, key)
  }

  // ---- What the keys of a round read ----

  /** An earlier key than the one at `i` names `row`. */
  ghost predicate Took(index: KeyMap, chunk: seq<PrimaryKey>, i: nat, row: RowId) {
    exists j :: 0 <= j < i && j < |chunk| && chunk[j] in index && index[chunk[j]] == row
  }

  /** Some key of the round wants `row`. */
  ghost predicate Wanted(
    rules: Rules, index: KeyMap, records: seq<StreamRecord>, chunk: seq<PrimaryKey>, row: RowId)
  {
    exists j :: 0 <= j < |chunk| && Wants(rules, index, records, chunk[j]) && index[chunk[j]] == row
  }

  /** What the key at `i` starts from: the document of its row, if some key of the round wants that row
      and no earlier key names it. */
  ghost function StartIn(
    rules: Rules, rows: RowSet, index: KeyMap, records: seq<StreamRecord>, chunk: seq<PrimaryKey>, i: nat)
    : Option<Document>
    requires i < |chunk|
  {
    var key := chunk[i];
    if && key in index && index[key] in rows && Wanted(rules, index, records, chunk, index[key])
       && !Took(index, chunk, i, index[key])
    then Some(rows[index[key]].doc) else None
  }

  /** The key at `i` starts from another key's document. */
  ghost predicate StartsWrong(
    rules: Rules, rows: RowSet, index: KeyMap, records: seq<StreamRecord>, chunk: seq<PrimaryKey>, i: nat)
    requires i < |chunk|
  {
    var start := StartIn(rules, rows, index, records, chunk, i);
    start.Some? && start.value.pk != chunk[i]
  }

  /** A round fails exactly when a row it wants is absent, or a key starts from another key's document. */
  ghost predicate RoundFails(
    rules: Rules, rows: RowSet, index: KeyMap, records: seq<StreamRecord>, chunk: seq<PrimaryKey>)
  {
    || !AllThere(rules, rows, index, records, chunk)
    || (exists i :: 0 <= i < |chunk| && StartsWrong(rules, rows, index, records, chunk, i))
  }

  /** Every row the round wants is there. */
  ghost predicate AllThere(
    rules: Rules, rows: RowSet, index: KeyMap, records: seq<StreamRecord>, chunk: seq<PrimaryKey>)
  {
    forall i :: 0 <= i < |chunk| && Wants(rules, index, records, chunk[i]) ==> index[chunk[i]] in rows
  }

  /** In a round that does not fail, a key starts from a document it may start from. */
  lemma StartMay(
    rules: Rules, rows: RowSet, index: KeyMap, records: seq<StreamRecord>, keys: set<PrimaryKey>,
    chunk: seq<PrimaryKey>, i: nat)
    requires i < |chunk| && RowLocator.Distinct(chunk) && forall j :: 0 <= j < |chunk| ==> chunk[j] in keys
    requires Wants(rules, index, records, chunk[i]) ==> index[chunk[i]] in rows
    requires !StartsWrong(rules, rows, index, records, chunk, i)
    ensures MayStart(
              rules, rows, index, records, keys, chunk[i], StartIn(rules, rows, index, records, chunk, i))
  {
    hide KeyOps;
    var key := chunk[i];
    var start := StartIn(rules, rows, index, records, chunk, i);
    if start.Some? && !Wants(rules, index, records, key) {
      var j :| 0 <= j < |chunk| && Wants(rules, index, records, chunk[j]) && index[chunk[j]] == index[key];
      assert Shares(index, keys, key);
    }
    if start.None? && Wants(rules, index, records, key) {
      assert Wanted(rules, index, records, chunk, index[key]);
      var j :| 0 <= j < i && chunk[j] in index && index[chunk[j]] == index[key];
      assert Shares(index, keys, key);
    }
  }

  /** A round that fails has a bad read. */
  lemma FailureIsBad(
    rules: Rules, rows: RowSet, index: KeyMap, records: seq<StreamRecord>, keys: set<PrimaryKey>,
    chunk: seq<PrimaryKey>)
    requires RoundFails(rules, rows, index, records, chunk) && RowLocator.Distinct(chunk)
    requires forall j :: 0 <= j < |chunk| ==> chunk[j] in keys
    ensures exists k :: k in keys && BadRead(rules, rows, index, records, keys, k)
  {
    hide KeyOps;
    if !AllThere(rules, rows, index, records, chunk) {
      var i :| 0 <= i < |chunk| && Wants(rules, index, records, chunk[i]) && index[chunk[i]] !in rows;
      assert BadRead(rules, rows, index, records, keys, chunk[i]);
    } else {
      var i :| 0 <= i < |chunk| && StartsWrong(rules, rows, index, records, chunk, i);
      var key := chunk[i];
      var j :| 0 <= j < |chunk| && Wants(rules, index, records, chunk[j]) && index[chunk[j]] == index[key];
      if j != i { assert Shares(index, keys, key); }
      assert BadRead(rules, rows, index, records, keys, key);
    }
  }

  lemma {:induction false} FirstNamer(index: KeyMap, chunk: seq<PrimaryKey>, i: nat, row: RowId) returns (j: nat)
    requires i <= |chunk| && Took(index, chunk, i, row)
    ensures j < i && chunk[j] in index && index[chunk[j]] == row && !Took(index, chunk, j, row)
    decreases i
  {
    j :| 0 <= j < i && chunk[j] in index && index[chunk[j]] == row;
    if Took(index, chunk, j, row) {
      j := FirstNamer(index, chunk, j, row);
    }
  }

  /** What a round that does not fail passes over: a key whose row is absent or another key's goes
      unnoticed exactly when it wants that row and an earlier key of the round names it. */
  lemma PassedOverIff(
    rules: Rules, rows: RowSet, index: KeyMap, records: seq<StreamRecord>, chunk: seq<PrimaryKey>, i: nat)
    requires i < |chunk| && RowLocator.Distinct(chunk) && !RoundFails(rules, rows, index, records, chunk)
    ensures KeyEnd(rules, rows, index, records, chunk[i]).Err? <==>
            Wants(rules, index, records, chunk[i]) && Took(index, chunk, i, index[chunk[i]])
    ensures Wants(rules, index, records, chunk[i]) ==>
              (StartIn(rules, rows, index, records, chunk, i).None? <==> Took(index, chunk, i, index[chunk[i]]))
  {
    hide KeyOps, Ended, RoundFails, Took;
    var key := chunk[i];
    if Wants(rules, index, records, key) {
      RoundReads(rules, rows, index, records, chunk, i);
      assert Wanted(rules, index, records, chunk, index[key]);
      if Took(index, chunk, i, index[key]) {
        var j := FirstNamer(index, chunk, i, index[key]);
        RoundReads(rules, rows, index, records, chunk, j);
        assert StartIn(rules, rows, index, records, chunk, j) == Some(rows[index[key]].doc);
      }
    }
  }

  lemma RoundReads(
    rules: Rules, rows: RowSet, index: KeyMap, records: seq<StreamRecord>, chunk: seq<PrimaryKey>, i: nat)
    requires i < |chunk| && !RoundFails(rules, rows, index, records, chunk)
    ensures Wants(rules, index, records, chunk[i]) ==> index[chunk[i]] in rows
    ensures !StartsWrong(rules, rows, index, records, chunk, i)
  {
    hide Wants, StartsWrong;
  }

  /** Two keys of one row, which is `a`'s. Alone, or before `a`, key `b` fails its round; after `a` in the
      same round it is passed over, although its row is not its own. */
  lemma SharedRowPassedOver(
    rules: Rules, rows: RowSet, index: KeyMap, records: seq<StreamRecord>, a: PrimaryKey, b: PrimaryKey)
    requires a != b && a in index && Wants(rules, index, records, b) && index[a] == index[b]
    requires index[a] in rows && rows[index[a]].doc.pk == a
    ensures KeyEnd(rules, rows, index, records, b).Err?
    ensures !RoundFails(rules, rows, index, records, [a, b])
    ensures RoundFails(rules, rows, index, records, [b, a]) && RoundFails(rules, rows, index, records, [b])
  {
    hide KeyOps;
    var row := index[a];
    assert [a, b][1] == b && [b, a][0] == b && [b][0] == b;
    assert Wanted(rules, index, records, [a, b], row);
    assert Took(index, [a, b], 1, row) by { assert [a, b][0] == a; }
    assert Wanted(rules, index, records, [b, a], row) && Wanted(rules, index, records, [b], row);
    assert StartsWrong(rules, rows, index, records, [b, a], 0) && StartsWrong(rules, rows, index, records, [b], 0);
  }

  // ---- What a batch resolves to ----

  ghost function StartLetters(rules: Rules, index: KeyMap, records: seq<StreamRecord>, starts: Starts)
    : multiset<Origin>
  {
    Gathered(k => LettersFrom(rules, index, records, starts, k), starts.Keys)
  }

  ghost function LettersFrom(rules: Rules, index: KeyMap, records: seq<StreamRecord>, starts: Starts, k: PrimaryKey)
    : multiset<Origin>
  {
    if k in starts then Ended(rules, records, k, starts[k], k in index).1 else multiset{}
  }

  /** `r` is the resolution of the keys of `starts`, each folded from its start. */
  ghost predicate ResolvesFrom(
    rules: Rules, index: KeyMap, records: seq<StreamRecord>, starts: Starts, r: Resolution)
  {
    && r.inserts.Keys <= starts.Keys && r.retired.Keys <= starts.Keys
    && (forall k :: k in starts ==>
          KeyResolves(Ok(Ended(rules, records, k, starts[k], k in index)), index, k, r))
    && r.letters == RefusedLetters(rules, records) + StartLetters(rules, index, records, starts)
  }

  lemma StartLettersAdd(
    rules: Rules, index: KeyMap, records: seq<StreamRecord>, starts: Starts, key: PrimaryKey, start: Option<Document>)
    requires key !in starts
    ensures StartLetters(rules, index, records, starts[key := start])
         == StartLetters(rules, index, records, starts) + Ended(rules, records, key, start, key in index).1
  {
    hide Ended, Gathered;
    var more := starts[key := start];
    assert more.Keys == starts.Keys + {key};
    GatheredAdd(k => LettersFrom(rules, index, records, more, k), starts.Keys, key);
    GatheredSame(
      k => LettersFrom(rules, index, records, more, k), k => LettersFrom(rules, index, records, starts, k),
      starts.Keys);
  }

  lemma ResolvesOneMore(
    rules: Rules, index: KeyMap, records: seq<StreamRecord>, starts: Starts, key: PrimaryKey,
    start: Option<Document>, before: Resolution, after: Resolution)
    requires ResolvesFrom(rules, index, records, starts, before) && key !in starts
    requires var end := Ended(rules, records, key, start, key in index);
             KeyResolves(Ok(end), index, key, after) && after.letters == before.letters + end.1
    requires after.inserts - {key} == before.inserts && after.retired - {key} == before.retired
    ensures ResolvesFrom(rules, index, records, starts[key := start], after)
  {
    hide Ended, StartLetters, RefusedLetters;
    StartLettersAdd(rules, index, records, starts, key, start);
    forall k | k in starts
      ensures KeyResolves(Ok(Ended(rules, records, k, starts[k], k in index)), index, k, after)
    {
      assert KeyResolves(Ok(Ended(rules, records, k, starts[k], k in index)), index, k, before);
      assert k in after.inserts <==> k in after.inserts - {key};
      assert k in after.retired <==> k in after.retired - {key};
    }
  }

  /** Where no two keys share a row, every key started from what its own row holds. */
  lemma StartIsRead(
    rules: Rules, rows: RowSet, index: KeyMap, records: seq<StreamRecord>, keys: set<PrimaryKey>, key: PrimaryKey,
    start: Option<Document>)
    requires MayStart(rules, rows, index, records, keys, key, start) && !Shares(index, keys, key)
    ensures KeyEnd(rules, rows, index, records, key) == Ok(Ended(rules, records, key, start, key in index))
  {
    hide KeyOps, FoldOps, Ended, Shares;
  }

  lemma ResolvesRead(
    rules: Rules, rows: RowSet, index: KeyMap, records: seq<StreamRecord>, starts: Starts, r: Resolution)
    requires ResolvesFrom(rules, index, records, starts, r) && Unshared(index, starts.Keys)
    requires forall k :: k in starts ==> MayStart(rules, rows, index, records, starts.Keys, k, starts[k])
    ensures Resolves(rules, rows, index, records, starts.Keys, r)
    ensures forall k :: k in starts ==> KeyEnd(rules, rows, index, records, k).Ok?
  {
    hide KeyEnd, Ended, RefusedLetters, Shares, MayStart, Gathered;
    forall k | k in starts
      ensures KeyEnd(rules, rows, index, records, k) == Ok(Ended(rules, records, k, starts[k], k in index))
    {
      StartIsRead(rules, rows, index, records, starts.Keys, k, starts[k]);
    }
    GatheredSame(
      k => LettersFrom(rules, index, records, starts, k), k => LettersOf(KeyEnd(rules, rows, index, records, k)),
      starts.Keys);
  }

  /** Where no two keys share a row, the bad reads are the keys that cannot be resolved. */
  lemma BadIsErr(
    rules: Rules, rows: RowSet, index: KeyMap, records: seq<StreamRecord>, keys: set<PrimaryKey>, key: PrimaryKey)
    requires !Shares(index, keys, key)
    ensures BadRead(rules, rows, index, records, keys, key) <==> KeyEnd(rules, rows, index, records, key).Err?
  {
    hide KeyOps, Ended, Shares;
  }

  // ---- One round ----

  /** The rows of `chunk` that are needed, read at once. */
  method FetchRound(
    rules: Rules, rows: RowSet, index: KeyMap, ghost records: seq<StreamRecord>,
    groups: map<PrimaryKey, seq<StreamRecord>>, chunk: seq<PrimaryKey>)
    returns (r: Result<map<RowId, Document>, Corrupt>)
    requires Grouped(rules, records, groups) && forall i :: 0 <= i < |chunk| ==> chunk[i] in groups
    ensures r.Ok? ==> Fetched(rules, rows, index, records, chunk, r.value)
    ensures r.Ok? <==> AllThere(rules, rows, index, records, chunk)
  {
    hide KeyOps;
    var current: map<RowId, Document> := map[];
    for i := 0 to |chunk|
      invariant Fetched(rules, rows, index, records, chunk[..i], current)
    {
      var key := chunk[i];
      assert chunk[..i + 1] == chunk[..i] + [key];
      if key in index && NeedsCurrent(groups[key]) {
        if index[key] !in rows {
          assert Wants(rules, index, records, chunk[i]);
          return Err(Corrupt);
        }
        FetchedMore(rules, rows, index, records, chunk[..i], key, current);
        current := current[index[key] := rows[index[key]].doc];
      } else {
        FetchedSame(rules, rows, index, records, chunk[..i], key, current);
      }
    }
    assert chunk[..|chunk|] == chunk;
    r := Ok(current);
  }

  /** `current` holds the rows that keys of `chunk` want, with their documents. */
  ghost predicate Fetched(
    rules: Rules, rows: RowSet, index: KeyMap, records: seq<StreamRecord>, chunk: seq<PrimaryKey>,
    current: map<RowId, Document>)
  {
    && (forall row :: row in current ==> row in rows && current[row] == rows[row].doc)
    && (forall row :: row in current ==>
          exists i :: 0 <= i < |chunk| && Wants(rules, index, records, chunk[i]) && index[chunk[i]] == row)
    && (forall i :: 0 <= i < |chunk| && Wants(rules, index, records, chunk[i]) ==> index[chunk[i]] in current)
  }

  lemma FetchedMore(
    rules: Rules, rows: RowSet, index: KeyMap, records: seq<StreamRecord>, chunk: seq<PrimaryKey>, key: PrimaryKey,
    current: map<RowId, Document>)
    requires Fetched(rules, rows, index, records, chunk, current)
    requires Wants(rules, index, records, key) && index[key] in rows
    ensures Fetched(rules, rows, index, records, chunk + [key], current[index[key] := rows[index[key]].doc])
  {
    hide KeyOps;
    var more, after := chunk + [key], current[index[key] := rows[index[key]].doc];
    forall row | row in after
      ensures exists i :: 0 <= i < |more| && Wants(rules, index, records, more[i]) && index[more[i]] == row
    {
      if row == index[key] {
        assert more[|chunk|] == key;
      } else {
        var i :| 0 <= i < |chunk| && Wants(rules, index, records, chunk[i]) && index[chunk[i]] == row;
        assert more[i] == chunk[i];
      }
    }
  }

  lemma FetchedSame(
    rules: Rules, rows: RowSet, index: KeyMap, records: seq<StreamRecord>, chunk: seq<PrimaryKey>, key: PrimaryKey,
    current: map<RowId, Document>)
    requires Fetched(rules, rows, index, records, chunk, current) && !Wants(rules, index, records, key)
    ensures Fetched(rules, rows, index, records, chunk + [key], current)
  {
    hide KeyOps;
    var more := chunk + [key];
    forall row | row in current
      ensures exists i :: 0 <= i < |more| && Wants(rules, index, records, more[i]) && index[more[i]] == row
    {
      var i :| 0 <= i < |chunk| && Wants(rules, index, records, chunk[i]) && index[chunk[i]] == row;
      assert more[i] == chunk[i];
    }
  }

  /** Ends `key`, its fold starting from `start`, and records what that does. */
  method EndKey(
    rules: Rules, index: KeyMap, ghost records: seq<StreamRecord>, key: PrimaryKey, ops: seq<StreamRecord>,
    start: Option<Document>, before: Resolution)
    returns (after: Resolution)
    requires ops == KeyOps(rules, records, key)
    requires key !in before.inserts && key !in before.retired
    ensures var end := Ended(rules, records, key, start, key in index);
            KeyResolves(Ok(end), index, key, after) && after.letters == before.letters + end.1
    ensures after.inserts - {key} == before.inserts && after.retired - {key} == before.retired
  {
    hide FoldOps;
    FilterKeeps(r => Touches(rules, key, r), records);
    assert forall i :: 0 <= i < |ops| ==> Touches(rules, key, ops[i]);
    var outcome, letters := FoldKey(rules, start, ops, key in index);
    after := before.(letters := before.letters + letters);
    match outcome {
      case Unchanged =>
      case Removed =>
        after := after.(retired := after.retired[key := index[key]]);
      case Written(row) =>
        after := after.(inserts := after.inserts[key := row]);
        if key in index {
          after := after.(retired := after.retired[key := index[key]]);
        }
    }
    assert after.inserts - {key} == before.inserts;
    assert after.retired - {key} == before.retired;
  }

  /** What is left of the fetched rows before the key at `i` ends: every row the round wants that no
      earlier key took. */
  ghost predicate Left(
    rules: Rules, rows: RowSet, index: KeyMap, records: seq<StreamRecord>, chunk: seq<PrimaryKey>,
    current: map<RowId, Document>, i: nat)
  {
    && (forall row :: row in current ==> row in rows && current[row] == rows[row].doc)
    && (forall row :: row in current <==>
          Wanted(rules, index, records, chunk, row) && !Took(index, chunk, i, row))
  }

  /** The key at `i` takes its start. */
  lemma TakenStart(
    rules: Rules, rows: RowSet, index: KeyMap, records: seq<StreamRecord>, chunk: seq<PrimaryKey>,
    current: map<RowId, Document>, i: nat)
    requires Left(rules, rows, index, records, chunk, current, i) && i < |chunk|
    ensures var key := chunk[i];
            StartIn(rules, rows, index, records, chunk, i)
            == if key in index && index[key] in current then Some(current[index[key]]) else None
  {
    hide Wanted, Took;
  }

  lemma LeftNext(
    rules: Rules, rows: RowSet, index: KeyMap, records: seq<StreamRecord>, chunk: seq<PrimaryKey>,
    current: map<RowId, Document>, i: nat)
    requires Left(rules, rows, index, records, chunk, current, i) && i < |chunk|
    ensures var after := if chunk[i] in index then current - {index[chunk[i]]} else current;
            Left(rules, rows, index, records, chunk, after, i + 1)
  {
    hide Wanted;
    forall row
      ensures Took(index, chunk, i + 1, row) <==>
              Took(index, chunk, i, row) || (chunk[i] in index && index[chunk[i]] == row)
    {
      if Took(index, chunk, i + 1, row) {
        var j :| 0 <= j < i + 1 && j < |chunk| && chunk[j] in index && index[chunk[j]] == row;
      }
    }
  }

  /** The keys resolved so far, each from a document it may start from. */
  ghost predicate Done(
    rules: Rules, rows: RowSet, index: KeyMap, records: seq<StreamRecord>, keys: set<PrimaryKey>, starts: Starts,
    r: Resolution)
  {
    && starts.Keys <= keys && ResolvesFrom(rules, index, records, starts, r)
    && (forall k :: k in starts ==> MayStart(rules, rows, index, records, keys, k, starts[k]))
  }

  lemma DoneKeys(
    rules: Rules, rows: RowSet, index: KeyMap, records: seq<StreamRecord>, keys: set<PrimaryKey>, starts: Starts,
    r: Resolution)
    requires Done(rules, rows, index, records, keys, starts, r)
    ensures r.inserts.Keys <= starts.Keys && r.retired.Keys <= starts.Keys && starts.Keys <= keys
  {
  }

  lemma DoneMore(
    rules: Rules, rows: RowSet, index: KeyMap, records: seq<StreamRecord>, keys: set<PrimaryKey>, starts: Starts,
    key: PrimaryKey, start: Option<Document>, before: Resolution, after: Resolution)
    requires Done(rules, rows, index, records, keys, starts, before) && key in keys && key !in starts
    requires MayStart(rules, rows, index, records, keys, key, start)
    requires var end := Ended(rules, records, key, start, key in index);
             KeyResolves(Ok(end), index, key, after) && after.letters == before.letters + end.1
    requires after.inserts - {key} == before.inserts && after.retired - {key} == before.retired
    ensures Done(rules, rows, index, records, keys, starts[key := start], after)
  {
    hide ResolvesFrom, MayStart, KeyResolves, Ended;
    ResolvesOneMore(rules, index, records, starts, key, start, before, after);
  }

  /** The keys of `chunk` started as the round had them start. */
  ghost predicate StartsAs(
    rules: Rules, rows: RowSet, index: KeyMap, records: seq<StreamRecord>, chunk: seq<PrimaryKey>, starts: Starts,
    n: nat)
  {
    forall i :: 0 <= i < |chunk| && i < n ==>
      chunk[i] in starts && starts[chunk[i]] == StartIn(rules, rows, index, records, chunk, i)
  }

  /** `more` has every start of `starts`. */
  ghost predicate Extends(starts: Starts, more: Starts) {
    forall k :: k in starts ==> k in more && more[k] == starts[k]
  }

  /** Ends the keys of `chunk` one after another; each takes the fetched row it names. */
  method EndRound(
    rules: Rules, rows: RowSet, index: KeyMap, ghost records: seq<StreamRecord>,
    groups: map<PrimaryKey, seq<StreamRecord>>, chunk: seq<PrimaryKey>, before: Resolution, ghost done: Starts)
    returns (r: Result<Resolution, Corrupt>, ghost starts: Starts)
    requires Grouped(rules, records, groups) && Done(rules, rows, index, records, groups.Keys, done, before)
    requires RowLocator.Distinct(chunk) && forall i :: 0 <= i < |chunk| ==> chunk[i] in groups && chunk[i] !in done
    ensures r.Err? <==> RoundFails(rules, rows, index, records, chunk)
    ensures r.Ok? ==> Done(rules, rows, index, records, groups.Keys, starts, r.value)
    ensures r.Ok? ==> Extends(done, starts) && StartsAs(rules, rows, index, records, chunk, starts, |chunk|)
    ensures r.Ok? ==> starts.Keys == done.Keys + set k | k in chunk
  {
    hide *;
    starts := done;
    NothingStarted(rules, rows, index, records, chunk, starts);
    var fetched := FetchRound(rules, rows, index, records, groups, chunk);
    if fetched.Err? {
      AbsentFails(rules, rows, index, records, chunk);
      return Err(Corrupt), starts;
    }
    var current := fetched.value;
    FetchedLeft(rules, rows, index, records, chunk, current);
    var resolution := before;
    for i := 0 to |chunk|
      invariant Left(rules, rows, index, records, chunk, current, i)
      invariant Done(rules, rows, index, records, groups.Keys, starts, resolution)
      invariant starts.Keys == done.Keys + set k | k in chunk[..i]
      invariant Extends(done, starts) && StartsAs(rules, rows, index, records, chunk, starts, i)
      invariant RightUpTo(rules, rows, index, records, chunk, i)
    {
      var key := chunk[i];
      TakenStart(rules, rows, index, records, chunk, current, i);
      LeftNext(rules, rows, index, records, chunk, current, i);
      var start: Option<Document> := None;
      if key in index && index[key] in current {
        start := Some(current[index[key]]);
      }
      if key in index {
        current := current - {index[key]};
      }
      WrongIs(rules, rows, index, records, chunk, i);
      if start.Some? && start.value.pk != key {
        WrongFails(rules, rows, index, records, chunk, i);
        return Err(Corrupt), starts;
      }
      RightMore(rules, rows, index, records, chunk, i);
      WantedHere(rules, rows, index, records, chunk, i);
      StartMay(rules, rows, index, records, groups.Keys, chunk, i);
      GroupIs(rules, records, groups, key);
      DoneKeys(rules, rows, index, records, groups.Keys, starts, resolution);
      NewKey(chunk, i);
      assert key !in starts;
      var after := EndKey(rules, index, records, key, groups[key], start, resolution);
      DoneMore(rules, rows, index, records, groups.Keys, starts, key, start, resolution, after);
      StartsMore(rules, rows, index, records, chunk, done, starts, i);
      starts := starts[key := start];
      resolution := after;
      assert chunk[..i + 1] == chunk[..i] + [key];
    }
    assert chunk[..|chunk|] == chunk;
    RightPasses(rules, rows, index, records, chunk);
    r := Ok(resolution);
  }

  lemma NothingStarted(
    rules: Rules, rows: RowSet, index: KeyMap, records: seq<StreamRecord>, chunk: seq<PrimaryKey>, starts: Starts)
    ensures Extends(starts, starts) && StartsAs(rules, rows, index, records, chunk, starts, 0)
    ensures RightUpTo(rules, rows, index, records, chunk, 0)
  {
  }

  lemma NewKey(chunk: seq<PrimaryKey>, i: nat)
    requires RowLocator.Distinct(chunk) && i < |chunk|
    ensures chunk[i] !in chunk[..i]
  {
  }

  lemma AbsentFails(rules: Rules, rows: RowSet, index: KeyMap, records: seq<StreamRecord>, chunk: seq<PrimaryKey>)
    ensures !AllThere(rules, rows, index, records, chunk) ==> RoundFails(rules, rows, index, records, chunk)
  {
    hide AllThere, StartsWrong;
  }

  lemma WrongFails(
    rules: Rules, rows: RowSet, index: KeyMap, records: seq<StreamRecord>, chunk: seq<PrimaryKey>, i: nat)
    requires i < |chunk| && StartsWrong(rules, rows, index, records, chunk, i)
    ensures RoundFails(rules, rows, index, records, chunk)
  {
    hide AllThere, StartsWrong;
  }

  /** No key before the one at `n` starts wrong. */
  ghost predicate RightUpTo(
    rules: Rules, rows: RowSet, index: KeyMap, records: seq<StreamRecord>, chunk: seq<PrimaryKey>, n: nat)
  {
    forall i :: 0 <= i < |chunk| && i < n ==> !StartsWrong(rules, rows, index, records, chunk, i)
  }

  lemma RightPasses(rules: Rules, rows: RowSet, index: KeyMap, records: seq<StreamRecord>, chunk: seq<PrimaryKey>)
    requires AllThere(rules, rows, index, records, chunk)
    requires RightUpTo(rules, rows, index, records, chunk, |chunk|)
    ensures !RoundFails(rules, rows, index, records, chunk)
  {
    hide AllThere, StartsWrong;
  }

  lemma RightMore(
    rules: Rules, rows: RowSet, index: KeyMap, records: seq<StreamRecord>, chunk: seq<PrimaryKey>, n: nat)
    requires n < |chunk| && RightUpTo(rules, rows, index, records, chunk, n)
    requires !StartsWrong(rules, rows, index, records, chunk, n)
    ensures RightUpTo(rules, rows, index, records, chunk, n + 1)
  {
    hide StartsWrong;
  }

  lemma WrongIs(
    rules: Rules, rows: RowSet, index: KeyMap, records: seq<StreamRecord>, chunk: seq<PrimaryKey>, i: nat)
    requires i < |chunk|
    ensures var start := StartIn(rules, rows, index, records, chunk, i);
            StartsWrong(rules, rows, index, records, chunk, i) <==> start.Some? && start.value.pk != chunk[i]
  {
  }

  lemma WantedHere(
    rules: Rules, rows: RowSet, index: KeyMap, records: seq<StreamRecord>, chunk: seq<PrimaryKey>, i: nat)
    requires i < |chunk| && AllThere(rules, rows, index, records, chunk)
    ensures Wants(rules, index, records, chunk[i]) ==> index[chunk[i]] in rows
  {
    hide KeyOps;
  }

  lemma StartsMore(
    rules: Rules, rows: RowSet, index: KeyMap, records: seq<StreamRecord>, chunk: seq<PrimaryKey>, done: Starts,
    starts: Starts, i: nat)
    requires i < |chunk| && Extends(done, starts) && StartsAs(rules, rows, index, records, chunk, starts, i)
    requires chunk[i] !in starts && RowLocator.Distinct(chunk)
    ensures var more := starts[chunk[i] := StartIn(rules, rows, index, records, chunk, i)];
            Extends(done, more) && Extends(starts, more) && StartsAs(rules, rows, index, records, chunk, more, i + 1)
  {
    hide StartIn;
  }

  lemma FetchedLeft(
    rules: Rules, rows: RowSet, index: KeyMap, records: seq<StreamRecord>, chunk: seq<PrimaryKey>,
    current: map<RowId, Document>)
    requires Fetched(rules, rows, index, records, chunk, current)
    ensures Left(rules, rows, index, records, chunk, current, 0)
  {
  }

  lemma GroupIs(
    rules: Rules, records: seq<StreamRecord>, groups: map<PrimaryKey, seq<StreamRecord>>, key: PrimaryKey)
    requires Grouped(rules, records, groups) && key in groups
    ensures groups[key] == KeyOps(rules, records, key)
  {
  }

  // ---- Every round ----

  /** `order` cut into rounds of `n` keys, the last one perhaps shorter. */
  function Chunks(order: seq<PrimaryKey>, n: nat): (r: seq<seq<PrimaryKey>>)
    requires n > 0
  {
    if order == [] then []
    else if |order| <= n then [order]
    else [order[..n]] + Chunks(order[n..], n)
  }

  /** One of the rounds fails. */
  ghost predicate SomeFails(
    rules: Rules, rows: RowSet, index: KeyMap, records: seq<StreamRecord>, chunks: seq<seq<PrimaryKey>>)
  {
    exists c :: 0 <= c < |chunks| && RoundFails(rules, rows, index, records, chunks[c])
  }

  /** Some key of the batch cannot be resolved: its row is absent or another key's. */
  ghost predicate SomeUnresolved(
    rules: Rules, rows: RowSet, index: KeyMap, records: seq<StreamRecord>, chunks: seq<seq<PrimaryKey>>)
  {
    exists c, i ::
      0 <= c < |chunks| && 0 <= i < |chunks[c]| && KeyEnd(rules, rows, index, records, chunks[c][i]).Err?
  }

  /** Some key wants a row that an earlier key of its round names. */
  ghost predicate SomeTaken(rules: Rules, index: KeyMap, records: seq<StreamRecord>, chunks: seq<seq<PrimaryKey>>) {
    exists c, i :: 0 <= c < |chunks| && 0 <= i < |chunks[c]| && Taken(rules, index, records, chunks[c], i)
  }

  ghost predicate Taken(rules: Rules, index: KeyMap, records: seq<StreamRecord>, chunk: seq<PrimaryKey>, i: nat)
    requires i < |chunk|
  {
    Wants(rules, index, records, chunk[i]) && Took(index, chunk, i, index[chunk[i]])
  }

  /** A batch that some key makes unresolvable is refused, unless none of its rounds fails and in one of
      them a key wants a row that an earlier one names. Only then is it accepted. */
  lemma AcceptedUnresolvedIff(
    rules: Rules, rows: RowSet, index: KeyMap, records: seq<StreamRecord>, chunks: seq<seq<PrimaryKey>>)
    requires forall c :: 0 <= c < |chunks| ==> RowLocator.Distinct(chunks[c])
    ensures var accepted := !SomeFails(rules, rows, index, records, chunks);
            accepted && SomeUnresolved(rules, rows, index, records, chunks) <==>
            accepted && SomeTaken(rules, index, records, chunks)
  {
    hide RoundFails, KeyEnd, Took, Wants;
    if !SomeFails(rules, rows, index, records, chunks) {
      forall c, i | 0 <= c < |chunks| && 0 <= i < |chunks[c]|
        ensures KeyEnd(rules, rows, index, records, chunks[c][i]).Err? <==> Taken(rules, index, records, chunks[c], i)
      {
        PassedOverIff(rules, rows, index, records, chunks[c], i);
        TakenIs(rules, index, records, chunks[c], i);
      }
    }
  }

  lemma TakenIs(rules: Rules, index: KeyMap, records: seq<StreamRecord>, chunk: seq<PrimaryKey>, i: nat)
    requires i < |chunk|
    ensures Taken(rules, index, records, chunk, i) <==>
            Wants(rules, index, records, chunk[i]) && Took(index, chunk, i, index[chunk[i]])
  {
  }

  /** The rounds of `past` passed, with the starts they gave. */
  ghost predicate Passed(
    rules: Rules, rows: RowSet, index: KeyMap, records: seq<StreamRecord>, past: seq<seq<PrimaryKey>>, starts: Starts)
  {
    forall c :: 0 <= c < |past| ==>
      && !RoundFails(rules, rows, index, records, past[c])
      && StartsAs(rules, rows, index, records, past[c], starts, |past[c]|)
  }

  lemma PassedMore(
    rules: Rules, rows: RowSet, index: KeyMap, records: seq<StreamRecord>, past: seq<seq<PrimaryKey>>, starts: Starts,
    chunk: seq<PrimaryKey>, more: Starts)
    requires Passed(rules, rows, index, records, past, starts) && Extends(starts, more)
    requires !RoundFails(rules, rows, index, records, chunk)
    requires StartsAs(rules, rows, index, records, chunk, more, |chunk|)
    ensures Passed(rules, rows, index, records, past + [chunk], more)
  {
    hide RoundFails, StartIn;
    var all := past + [chunk];
    forall c | 0 <= c < |all|
      ensures !RoundFails(rules, rows, index, records, all[c])
      ensures StartsAs(rules, rows, index, records, all[c], more, |all[c]|)
    {
      if c < |past| {
        assert StartsAs(rules, rows, index, records, past[c], starts, |past[c]|);
      }
    }
  }

  lemma ChunkOff(order: seq<PrimaryKey>, n: nat)
    requires n > 0 && order != []
    ensures var m := if |order| < n then |order| else n;
            0 < m <= |order| && Chunks(order, n) == [order[..m]] + Chunks(order[m..], n)
  {
    if |order| <= n {
      assert order[..|order|] == order && order[|order|..] == [];
    }
  }

  /** `resolve`: groups the batch by key, then ends the keys in ascending order, in rounds of at most
      `round`. It fails exactly when one of the rounds does, and otherwise folds every key from what its
      round had it start from. Where the index gives every key a row of its own, that is what its own
      row holds, and it fails exactly when some key cannot be resolved. */
  method ResolveBatch(rules: Rules, rows: RowSet, index: KeyMap, records: seq<StreamRecord>, round: nat)
    returns (r: Result<Resolution, Corrupt>, ghost starts: Starts, ghost order: seq<PrimaryKey>)
    ensures InKeyOrder(order, KeysOf(rules, records))
    ensures var chunks := Chunks(order, Rounded(round));
            && (r.Err? <==> SomeFails(rules, rows, index, records, chunks))
            && (r.Ok? ==> Passed(rules, rows, index, records, chunks, starts))
    ensures r.Ok? ==>
              && starts.Keys == KeysOf(rules, records)
              && Done(rules, rows, index, records, KeysOf(rules, records), starts, r.value)
    ensures Unshared(index, KeysOf(rules, records)) ==>
              && (r.Ok? ==> Resolves(rules, rows, index, records, KeysOf(rules, records), r.value))
              && (r.Err? <==>
                    exists k :: k in KeysOf(rules, records) && KeyEnd(rules, rows, index, records, k).Err?)
  {
    hide *;
    var groups, letters := GroupByKey(rules, records);
    GroupKeys(rules, records, groups);
    var resolution := Resolution(map[], map[], letters);
    starts := map[];
    NothingDone(rules, rows, index, records, groups.Keys, resolution);
    var keys := SortKeys(groups.Keys);
    order := keys;
    OrderKeys(order, groups.Keys);
    var n, at := Rounded(round), 0;
    ghost var past: seq<seq<PrimaryKey>> := [];
    NothingPassed(rules, rows, index, records, starts);
    assert keys[0..] == order && [] + Chunks(order, n) == Chunks(order, n);
    while at < |keys|
      invariant 0 <= at <= |keys| && past + Chunks(keys[at..], n) == Chunks(order, n)
      invariant Passed(rules, rows, index, records, past, starts)
      invariant Done(rules, rows, index, records, groups.Keys, starts, resolution)
      invariant starts.Keys == set k | k in keys[..at]
    {
      var end := if |keys| - at < n then |keys| else at + n;
      var chunk := keys[at..end];
      NextChunk(order, n, at, end, past);
      ChunkKeys(order, groups.Keys, at, end);
      ghost var more;
      r, more := EndRound(rules, rows, index, records, groups, chunk, resolution, starts);
      if r.Err? {
        ChunkFails(rules, rows, index, records, Chunks(order, n), |past|);
        FailureIsBad(rules, rows, index, records, groups.Keys, chunk);
        Failed(rules, rows, index, records, groups.Keys);
        return;
      }
      PassedMore(rules, rows, index, records, past, starts, chunk, more);
      past := past + [chunk];
      assert keys[..end] == keys[..at] + chunk;
      resolution, starts, at := r.value, more, end;
    }
    AllChunks(order, n, at, past);
    assert keys[..at] == keys;
    NoneFails(rules, rows, index, records, past, starts);
    Succeeded(rules, rows, index, records, starts, resolution);
    r := Ok(resolution);
  }

  lemma NextChunk(order: seq<PrimaryKey>, n: nat, at: nat, end: nat, past: seq<seq<PrimaryKey>>)
    requires n > 0 && at < |order| && end == (if |order| - at < n then |order| else at + n)
    requires past + Chunks(order[at..], n) == Chunks(order, n)
    ensures at < end <= |order| && past + [order[at..end]] + Chunks(order[end..], n) == Chunks(order, n)
    ensures |past| < |Chunks(order, n)| && Chunks(order, n)[|past|] == order[at..end]
  {
    hide *;
    ChunkOff(order[at..], n);
    assert order[at..][..end - at] == order[at..end] && order[at..][end - at..] == order[end..];
    Reassociate(past, [order[at..end]], Chunks(order[end..], n));
  }

  lemma Reassociate<T>(a: seq<T>, b: seq<T>, c: seq<T>)
    ensures a + (b + c) == a + b + c
  {
  }

  lemma AllChunks(order: seq<PrimaryKey>, n: nat, at: nat, past: seq<seq<PrimaryKey>>)
    requires n > 0 && at == |order| && past + Chunks(order[at..], n) == Chunks(order, n)
    ensures past == Chunks(order, n)
  {
    assert order[at..] == [];
    assert past + [] == past;
  }

  lemma ChunkFails(
    rules: Rules, rows: RowSet, index: KeyMap, records: seq<StreamRecord>, chunks: seq<seq<PrimaryKey>>, c: nat)
    requires c < |chunks| && RoundFails(rules, rows, index, records, chunks[c])
    ensures SomeFails(rules, rows, index, records, chunks)
  {
    hide RoundFails;
  }

  function Rounded(round: nat): (n: nat)
    ensures n > 0
  {
    if round < 1 then 1 else round
  }

  lemma NothingPassed(rules: Rules, rows: RowSet, index: KeyMap, records: seq<StreamRecord>, starts: Starts)
    ensures Passed(rules, rows, index, records, [], starts)
  {
  }

  lemma NoneFails(
    rules: Rules, rows: RowSet, index: KeyMap, records: seq<StreamRecord>, past: seq<seq<PrimaryKey>>, starts: Starts)
    requires Passed(rules, rows, index, records, past, starts)
    ensures !SomeFails(rules, rows, index, records, past)
  {
    hide RoundFails;
  }

  lemma OrderKeys(order: seq<PrimaryKey>, keys: set<PrimaryKey>)
    requires InKeyOrder(order, keys)
    ensures (set k | k in order) == keys
  {
  }

  lemma ChunkKeys(order: seq<PrimaryKey>, keys: set<PrimaryKey>, at: nat, end: nat)
    requires InKeyOrder(order, keys) && at <= end <= |order|
    ensures var chunk := order[at..end];
            RowLocator.Distinct(chunk) && forall i :: 0 <= i < |chunk| ==> chunk[i] in keys && chunk[i] !in order[..at]
  {
  }

  lemma GroupKeys(rules: Rules, records: seq<StreamRecord>, groups: map<PrimaryKey, seq<StreamRecord>>)
    requires Grouped(rules, records, groups)
    ensures groups.Keys == KeysOf(rules, records)
  {
  }

  lemma NothingDone(
    rules: Rules, rows: RowSet, index: KeyMap, records: seq<StreamRecord>, keys: set<PrimaryKey>, r: Resolution)
    requires r == Resolution(map[], map[], RefusedLetters(rules, records))
    ensures Done(rules, rows, index, records, keys, map[], r)
  {
    hide RefusedLetters;
    var none: Starts := map[];
    assert none.Keys == {};
  }

  lemma Succeeded(
    rules: Rules, rows: RowSet, index: KeyMap, records: seq<StreamRecord>, starts: Starts, r: Resolution)
    requires Done(rules, rows, index, records, starts.Keys, starts, r)
    ensures Unshared(index, starts.Keys) ==>
              && Resolves(rules, rows, index, records, starts.Keys, r)
              && forall k :: k in starts.Keys ==> KeyEnd(rules, rows, index, records, k).Ok?
  {
    hide Unshared, ResolvesFrom, MayStart, Resolves, KeyEnd;
    if Unshared(index, starts.Keys) {
      ResolvesRead(rules, rows, index, records, starts, r);
    }
  }

  lemma Failed(rules: Rules, rows: RowSet, index: KeyMap, records: seq<StreamRecord>, keys: set<PrimaryKey>)
    requires exists k :: k in keys && BadRead(rules, rows, index, records, keys, k)
    ensures Unshared(index, keys) ==> exists k :: k in keys && KeyEnd(rules, rows, index, records, k).Err?
  {
    hide BadRead, KeyEnd, Shares;
    var k :| k in keys && BadRead(rules, rows, index, records, keys, k);
    if Unshared(index, keys) {
      BadIsErr(rules, rows, index, records, keys, k);
    }
  }
}
