/** What a consistency token promises: a read that waits for its offsets sees the write
    (crates/loams-collection/src/token.rs and writer.rs against what the collection applied). */
module ConsistentReads {
  import opened Prelude
  import opened PrimaryKeys
  import opened Resolve
  import opened Batching
  import opened Offsets
  import opened Commits
  import opened History
  import opened Protocol
  import opened ProtocolSafety
  import opened ProtocolTheorems
  import Tokens
  import Writers

  // ---- Applied offsets and consumed records ----

  /** Record `r` is among the offsets commit `i` covers. */
  ghost predicate CoveredBy(history: seq<Commit>, i: nat, r: StreamRecord)
    requires i < |history|
  {
    UpTo(At(history, i).applied, r.partition) <= r.offset < UpTo(At(history, i + 1).applied, r.partition)
  }

  /** Every commit carries every record of `log` at the offsets it covers. */
  ghost predicate CarriesAll(log: set<StreamRecord>, history: seq<Commit>) {
    forall i, r :: 0 <= i < |history| && r in log && CoveredBy(history, i, r) ==> r in history[i].batch.records
  }

  lemma CarriesFront(log: set<StreamRecord>, history: seq<Commit>)
    requires CarriesAll(log, history) && history != []
    ensures CarriesAll(log, history[..|history| - 1])
  {
    var front := history[..|history| - 1];
    forall i, r | 0 <= i < |front| && r in log && CoveredBy(front, i, r) ensures r in front[i].batch.records {
      assert CoveredBy(history, i, r);
    }
  }

  /** A record of the log was consumed exactly when its offset is below what the newest manifest
      applied. */
  lemma {:induction false} AppliedIffConsumed(
    rules: Rules, history: seq<Commit>, log: set<StreamRecord>, r: StreamRecord)
    requires ChainOk(rules, history) && CarriesAll(log, history) && r in log
    ensures r.offset < UpTo(At(history, |history|).applied, r.partition) <==> r in Consumed(history)
  {
    ConsumedOnce(rules, history);
    if r.offset < UpTo(At(history, |history|).applied, r.partition) {
      AppliedIsConsumed(rules, history, log, r);
    }
    if r in Consumed(history) {
      var i :| 0 <= i < |Consumed(history)| && Consumed(history)[i] == r;
    }
  }

  lemma {:induction false} AppliedIsConsumed(
    rules: Rules, history: seq<Commit>, log: set<StreamRecord>, r: StreamRecord)
    requires ChainOk(rules, history) && CarriesAll(log, history) && r in log
    requires r.offset < UpTo(At(history, |history|).applied, r.partition)
    ensures r in Consumed(history)
  {
    if history != [] {
      var n := |history| - 1;
      var front := history[..n];
      hide ChainOk, Consumed, CarriesAll;
      ChainFront(rules, history);
      CarriesFront(log, history);
      ConsumedStep(history);
      assert At(front, n) == At(history, n);
      if r.offset < UpTo(At(history, n).applied, r.partition) {
        AppliedIsConsumed(rules, front, log, r);
      } else {
        assert CoveredBy(history, n, r);
        CarriedAt(log, history, n, r);
      }
    }
  }

  lemma CarriedAt(log: set<StreamRecord>, history: seq<Commit>, i: nat, r: StreamRecord)
    requires CarriesAll(log, history) && i < |history| && r in log && CoveredBy(history, i, r)
    ensures r in history[i].batch.records
  {
  }

  // ---- Tokens ----

  /** The collection of stream `stream` has applied the offsets `token` names. */
  ghost predicate Reached(applied: Applied, stream: nat, token: Tokens.Token) {
    forall p: nat :: PairReached(applied, stream, token, p)
  }

  ghost predicate PairReached(applied: Applied, stream: nat, token: Tokens.Token, p: nat) {
    var offset := Tokens.Offset(token, (stream, p));
    offset.Some? ==> offset.value <= UpTo(applied, p)
  }

  /** Waiting for a merged token is waiting for both. */
  lemma ReachedMerge(applied: Applied, stream: nat, a: Tokens.Token, b: Tokens.Token)
    ensures Reached(applied, stream, Tokens.Merge(a, b)) <==>
            Reached(applied, stream, a) && Reached(applied, stream, b)
  {
    hide Tokens.Merge, Tokens.Offset;
    forall p: nat
      ensures PairReached(applied, stream, Tokens.Merge(a, b), p) <==>
              PairReached(applied, stream, a, p) && PairReached(applied, stream, b, p)
    {
      Tokens.MergeOffset(a, b, (stream, p));
    }
    hide PairReached;
    if Reached(applied, stream, Tokens.Merge(a, b)) {
      forall p: nat ensures PairReached(applied, stream, a, p) && PairReached(applied, stream, b, p) {
        assert PairReached(applied, stream, Tokens.Merge(a, b), p);
      }
    }
  }

  /** A write's token is reached exactly when every offset it wrote is applied: waiting for it is no
      more and no less than waiting for the write. */
  lemma ReachedIffApplied<O, R>(
    applied: Applied, check: (nat, O) -> Writers.Checked<R>, ops: seq<O>, stream: nat,
    outcome: Writers.WriteOutcome, bases: map<nat, nat>)
    requires Writers.WroteAll(check, ops, stream, outcome, bases)
    ensures Reached(applied, stream, outcome.token) <==>
            forall i: nat :: i < |outcome.results| ==> ResultApplied(applied, outcome.results[i])
  {
    hide Tokens.Offset, Writers.WroteAll;
    Writers.OneResultEach(check, ops, stream, outcome, bases);
    if Reached(applied, stream, outcome.token) {
      forall i: nat | i < |ops| ensures ResultApplied(applied, outcome.results[i]) {
        if outcome.results[i].Written? {
          Writers.TokenPastOffsets(check, ops, stream, outcome, bases, i);
          assert PairReached(applied, stream, outcome.token, outcome.results[i].partition);
        }
      }
    }
    if forall i: nat :: i < |ops| ==> ResultApplied(applied, outcome.results[i]) {
      forall p: nat ensures PairReached(applied, stream, outcome.token, p) {
        if Tokens.Offset(outcome.token, (stream, p)).Some? {
          var i := Writers.TokenIsNext(check, ops, stream, outcome, bases, p);
          assert ResultApplied(applied, outcome.results[i]);
        }
      }
    }
  }

  ghost predicate ResultApplied(applied: Applied, result: Writers.OpResult) {
    result.Written? ==> result.offset < UpTo(applied, result.partition)
  }

  /** What was reached stays reached. */
  lemma ReachedLater(before: Applied, after: Applied, stream: nat, token: Tokens.Token)
    requires Reached(before, stream, token) && AppliedLe(before, after)
    ensures Reached(after, stream, token)
  {
    hide Tokens.Offset;
    forall p: nat ensures PairReached(after, stream, token, p) {
      assert PairReached(before, stream, token, p);
    }
  }

  // ---- A read sees the write ----

  /** Once the live manifest has reached a write's token, the record of every op it wrote was consumed,
      once, and the live documents are the fold of what was consumed. */
  lemma ReadSeesWrite<O, R>(
    c: Config, s: State, log: set<StreamRecord>, check: (nat, O) -> Writers.Checked<R>, ops: seq<O>, stream: nat,
    outcome: Writers.WriteOutcome, bases: map<nat, nat>, i: nat, r: StreamRecord)
    requires Reachable(c, s) && CarriesAll(log, s.history)
    requires Writers.WroteAll(check, ops, stream, outcome, bases) && i < |ops| && outcome.results[i].Written?
    requires r in log && r.partition == outcome.results[i].partition && r.offset == outcome.results[i].offset
    requires Reached(LiveManifest(s).applied, stream, outcome.token)
    ensures r in Consumed(s.history)
    ensures ManifestDocs(LiveManifest(s)) == StreamFold(c.rules, Consumed(s.history))
  {
    hide Reachable, Inv, ChainOk, CarriesAll, Writers.WroteAll, Consumed, ManifestDocs, StreamFold, Tokens.Offset;
    ReachableInv(c, s);
    InvChain(c, s);
    Writers.TokenPastOffsets(check, ops, stream, outcome, bases, i);
    assert PairReached(LiveManifest(s).applied, stream, outcome.token, r.partition);
    AppliedIffConsumed(c.rules, s.history, log, r);
    DocsAreStream(c.rules, s.history);
  }

  /** No consumed record after `r` touches its key. */
  ghost predicate LastOfKey(rules: Rules, records: seq<StreamRecord>, k: PrimaryKey, r: StreamRecord) {
    forall q :: q in records && Touches(rules, k, q) ==> q.offset <= r.offset
  }

  lemma {:induction false} LastOpIs(rules: Rules, records: seq<StreamRecord>, k: PrimaryKey, r: StreamRecord)
    requires StreamOrdered(records) && r in records && Touches(rules, k, r) && LastOfKey(rules, records, k, r)
    ensures var ops := KeyOps(rules, records, k); ops != [] && ops[|ops| - 1] == r
  {
    hide *;
    var front, x := records[..|records| - 1], records[|records| - 1];
    assert records == front + [x];
    KeyOpsStep(rules, front, x, k);
    if Touches(rules, k, x) {
      LastTouch(rules, records, k, r);
    } else {
      assert r in front;
      FrontLast(rules, front, x, k, r);
      LastOpIs(rules, front, k, r);
    }
  }

  lemma LastTouch(rules: Rules, records: seq<StreamRecord>, k: PrimaryKey, r: StreamRecord)
    requires StreamOrdered(records) && r in records && Touches(rules, k, r) && LastOfKey(rules, records, k, r)
    requires Touches(rules, k, records[|records| - 1])
    ensures r == records[|records| - 1]
  {
    var n := |records| - 1;
    assert records[n] in records && records[n].offset <= r.offset;
    var j :| 0 <= j < |records| && records[j] == r;
  }

  lemma FrontLast(rules: Rules, front: seq<StreamRecord>, x: StreamRecord, k: PrimaryKey, r: StreamRecord)
    requires StreamOrdered(front + [x]) && LastOfKey(rules, front + [x], k, r)
    ensures StreamOrdered(front) && LastOfKey(rules, front, k, r)
  {
    var all := front + [x];
    forall i, j | 0 <= i < j < |front| && front[i].partition == front[j].partition
      ensures front[i].offset < front[j].offset
    {
      assert all[i] == front[i] && all[j] == front[j];
    }
    forall q | q in front && Touches(rules, k, q) ensures q.offset <= r.offset {
      assert q in all;
    }
  }

  /** What the last op of a key leaves. */
  lemma LastOpLeaves(rules: Rules, history: seq<Commit>, k: PrimaryKey, r: StreamRecord)
    requires ChainOk(rules, history) && r in Consumed(history) && Touches(rules, k, r) && !r.op.value.Patch?
    requires LastOfKey(rules, Consumed(history), k, r)
    ensures Get(ManifestDocs(At(history, |history|)), k)
         == if r.op.value.Upsert? then Some(StoredDoc(r.op.value.doc, r.partition, r.offset)) else None
  {
    hide ChainOk, ManifestDocs, At, KeyOps, FoldBatches;
    ConsumedOnce(rules, history);
    DocsAreBatches(rules, history);
    BatchesAtKey(rules, Batches(history), k);
    LastOpIs(rules, Consumed(history), k, r);
  }

  /** A read that waits for a write's token finds the document of an upsert it wrote, with that record as
      its writer, unless a later op of the key was applied; and finds no document of a key it deleted. */
  lemma ReadSeesLastWrite<O, R>(
    c: Config, s: State, log: set<StreamRecord>, check: (nat, O) -> Writers.Checked<R>, ops: seq<O>, stream: nat,
    outcome: Writers.WriteOutcome, bases: map<nat, nat>, i: nat, r: StreamRecord, k: PrimaryKey)
    requires Reachable(c, s) && CarriesAll(log, s.history)
    requires Writers.WroteAll(check, ops, stream, outcome, bases) && i < |ops| && outcome.results[i].Written?
    requires r in log && r.partition == outcome.results[i].partition && r.offset == outcome.results[i].offset
    requires Reached(LiveManifest(s).applied, stream, outcome.token)
    requires Touches(c.rules, k, r) && !r.op.value.Patch? && LastOfKey(c.rules, Consumed(s.history), k, r)
    ensures Get(ManifestDocs(LiveManifest(s)), k)
         == if r.op.value.Upsert? then Some(StoredDoc(r.op.value.doc, r.partition, r.offset)) else None
  {
    hide *;
    ReadSeesWrite(c, s, log, check, ops, stream, outcome, bases, i, r);
    ReachableInv(c, s);
    InvChain(c, s);
    LiveIs(s);
    LastOpLeaves(c.rules, s.history, k, r);
  }

  lemma LiveIs(s: State)
    ensures LiveManifest(s) == At(s.history, |s.history|)
  {
  }
}
