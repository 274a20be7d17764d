/** The read-through block cache (crates/loams-cache/src/range_cache.rs). */
module RangeCaches {
  import opened Prelude
  import opened RowLocator

  type Path = string
  type Bytes = seq<Byte>

  const CRC_LEN: nat := 4

  // ---- Sealing ----

  /** A checksum: four bytes of any bytes. */
  type Checksum = f: Bytes -> Bytes | (forall b :: |f(b)| == CRC_LEN) witness (b => [0, 0, 0, 0])

  function Seal(crc: Checksum, data: Bytes): Bytes {
    data + crc(data)
  }

  /** The payload, if its trailing checksum matches. */
  function Verify(crc: Checksum, sealed: Bytes): Option<Bytes> {
    if |sealed| < CRC_LEN then None
    else
      var n := |sealed| - CRC_LEN;
      if crc(sealed[..n]) == sealed[n..] then Some(sealed[..n]) else None
  }

  lemma SealVerifies(crc: Checksum, data: Bytes)
    ensures Verify(crc, Seal(crc, data)) == Some(data)
  {
    var sealed := Seal(crc, data);
    assert sealed[..|data|] == data && sealed[|data|..] == crc(data);
  }

  // ---- Blocks ----

  function Min(a: int, b: int): int {
    if a < b then a else b
  }

  /** Where block `i` starts. */
  function Offset(size: nat, i: nat): nat {
    i * size
  }

  /** Block `i` of `content`: `size` bytes, or what is left. */
  function Block(content: Bytes, size: nat, i: nat): Bytes
    requires Offset(size, i) <= |content|
  {
    content[Offset(size, i)..Min(Offset(size, i) + size, |content|)]
  }

  /** `data` is block `i` of `content`, and there is one. */
  predicate IsBlock(content: Bytes, size: nat, i: nat, data: Bytes) {
    Offset(size, i) < |content| && data == Block(content, size, i)
  }

  /** The length block `i` of a content of `total` bytes has. */
  function Expected(size: nat, total: int, i: nat): int {
    Min(size, total - Offset(size, i))
  }

  lemma DivBounds(a: nat, b: nat)
    requires b > 0
    ensures (a / b) * b <= a < (a / b) * b + b
  {
    assert a == (a / b) * b + a % b;
  }

  lemma MulLe(i: nat, j: nat, size: nat)
    requires i <= j
    ensures i * size <= j * size
    ensures i < j ==> i * size + size <= j * size
  {
    if i < j {
      var d := j - i - 1;
      assert j * size == i * size + size + d * size;
      assert d * size >= 0;
    }
  }

  // ---- Stitching ----

  /** How far a read of `start..end` has come before block `i`. */
  function Cut(start: nat, end: nat, at: nat): (r: nat)
    requires start <= end
    ensures start <= r <= end
  {
    if at <= start then start else if at >= end then end else at
  }

  /** The part of a block at `at` that a read of `start..end` takes. */
  function Part(start: nat, end: nat, at: nat, block: Bytes): Bytes
    requires start < end && at < end && start < at + |block|
  {
    var from := if start > at then start - at else 0;
    var to := Min(end - at, |block|);
    block[from..to]
  }

  /** The parts of consecutive blocks are consecutive bytes. */
  lemma PartExtends(content: Bytes, start: nat, end: nat, at: nat, block: Bytes)
    requires start < end <= |content| && at < end && start < at + |block| <= |content|
    requires block == content[at..at + |block|]
    ensures content[start..Cut(start, end, at)] + Part(start, end, at, block)
         == content[start..Cut(start, end, at + |block|)]
  {
    var from := if start > at then start - at else 0;
    var to := Min(end - at, |block|);
    SliceOfSlice(content, at, at + |block|, from, to);
    SliceConcat(content, start, at + from, at + to);
  }

  lemma SliceOfSlice(content: Bytes, a: nat, b: nat, from: nat, to: nat)
    requires a <= b <= |content| && from <= to <= b - a
    ensures content[a..b][from..to] == content[a + from..a + to]
  {
    var left, right := content[a..b][from..to], content[a + from..a + to];
    forall i | 0 <= i < to - from ensures left[i] == right[i] {
      assert content[a..b][from + i] == content[a + (from + i)];
    }
  }

  lemma SliceConcat(content: Bytes, a: nat, b: nat, c: nat)
    requires a <= b <= c <= |content|
    ensures content[a..b] + content[b..c] == content[a..c]
  {
  }

  /** Blocks `first` onwards, each of the length `total` gives it, are true blocks of `content`. */
  ghost predicate TrueBlocks(content: Bytes, size: nat, total: nat, first: nat, blocks: seq<Bytes>) {
    forall k: nat :: k < |blocks| ==>
      IsBlock(content, size, first + k, blocks[k]) && |blocks[k]| == Expected(size, total, first + k)
  }

  /** The block byte `at` is in. */
  function BlockOf(size: nat, at: nat): nat
    requires size > 0
  {
    at / size
  }

  /** Blocks `first` to `first + n - 1` are those a read of `start..end` touches. */
  predicate Spans(size: nat, first: nat, n: nat, start: nat, end: nat) {
    size > 0 && start < end && first == BlockOf(size, start) && first + n == BlockOf(size, end - 1) + 1
  }

  /** Every block has the length `total` gives it. */
  ghost predicate RightLengths(size: nat, total: nat, first: nat, blocks: seq<Bytes>) {
    forall k: nat :: k < |blocks| ==> |blocks[k]| == Expected(size, total, first + k)
  }

  /** The last loop of `read_sized`: if the blocks are true, so are the bytes it collects. */
  method Stitch(
    ghost content: Bytes, size: nat, ghost total: nat, first: nat, blocks: seq<Bytes>, start: nat, end: nat)
    returns (out: Bytes)
    requires Spans(size, first, |blocks|, start, end) && start < end <= total
    requires RightLengths(size, total, first, blocks)
    ensures TrueBlocks(content, size, total, first, blocks) ==> end <= |content| && out == content[start..end]
  {
    hide TrueBlocks, Part, Spans, Offset, Expected, Cut;
    ghost var isTrue := TrueBlocks(content, size, total, first, blocks);
    if isTrue { EndInside(content, size, total, first, blocks, start, end); }
    CutEnds(size, first, |blocks|, start, end);
    out := [];
    for k := 0 to |blocks|
      invariant isTrue ==> out == content[start..Cut(start, end, Offset(size, first + k))]
    {
      var at := Offset(size, first + k);
      PartInRange(size, total, first, |blocks|, start, end, k, |blocks[k]|);
      if isTrue {
        BlockInRange(content, size, total, first, blocks, start, end, k);
        PartExtends(content, start, end, at, blocks[k]);
        CutAgrees(size, total, start, end, first, |blocks|, k, |blocks[k]|);
      }
      out := out + Part(start, end, at, blocks[k]);
    }
  }

  lemma PartInRange(size: nat, total: nat, first: nat, n: nat, start: nat, end: nat, k: nat, length: nat)
    requires Spans(size, first, n, start, end) && end <= total && k < n && length == Expected(size, total, first + k)
    ensures Offset(size, first + k) < end && start < Offset(size, first + k) + length
  {
    DivBounds(start, size);
    DivBounds(end - 1, size);
    MulLe(first, first + k, size);
    MulLe(first + k, first + n - 1, size);
  }

  lemma CutEnds(size: nat, first: nat, n: nat, start: nat, end: nat)
    requires Spans(size, first, n, start, end)
    ensures Cut(start, end, Offset(size, first)) == start && Cut(start, end, Offset(size, first + n)) == end
  {
    DivBounds(start, size);
    DivBounds(end - 1, size);
    PastEnd(end, size);
  }

  lemma PastEnd(end: nat, size: nat)
    requires size > 0 && end > 0
    ensures ((end - 1) / size + 1) * size >= end
  {
    DivBounds(end - 1, size);
    assert ((end - 1) / size + 1) * size == (end - 1) / size * size + size;
  }

  lemma SpansSome(size: nat, first: nat, n: nat, start: nat, end: nat)
    requires Spans(size, first, n, start, end)
    ensures n > 0
  {
    DivBounds(start, size);
    PastEnd(end, size);
  }

  lemma EndInside(
    content: Bytes, size: nat, total: nat, first: nat, blocks: seq<Bytes>, start: nat, end: nat)
    requires Spans(size, first, |blocks|, start, end) && end <= total
    requires TrueBlocks(content, size, total, first, blocks)
    ensures end <= |content|
  {
    SpansSome(size, first, |blocks|, start, end);
    DivBounds(end - 1, size);
    var last := |blocks| - 1;
    assert IsBlock(content, size, first + last, blocks[last]);
  }

  lemma BlockInRange(
    content: Bytes, size: nat, total: nat, first: nat, blocks: seq<Bytes>, start: nat, end: nat, k: nat)
    requires Spans(size, first, |blocks|, start, end) && end <= total && k < |blocks|
    requires TrueBlocks(content, size, total, first, blocks)
    ensures var at := Offset(size, first + k);
            && at < end && |blocks[k]| == Expected(size, total, first + k)
            && start < at + |blocks[k]| <= |content| && blocks[k] == content[at..at + |blocks[k]|]
  {
    DivBounds(start, size);
    DivBounds(end - 1, size);
    MulLe(first, first + k, size);
    MulLe(first + k, first + |blocks| - 1, size);
    assert IsBlock(content, size, first + k, blocks[k]);
  }

  lemma CutAgrees(size: nat, total: nat, start: nat, end: nat, first: nat, n: nat, k: nat, length: nat)
    requires Spans(size, first, n, start, end) && end <= total && k < n
    requires length == Expected(size, total, first + k)
    ensures Cut(start, end, Offset(size, first + k) + length) == Cut(start, end, Offset(size, first + (k + 1)))
  {
    DivBounds(start, size);
    DivBounds(end - 1, size);
    MulLe(first + k, first + n - 1, size);
    assert (first + (k + 1)) * size == (first + k) * size + size;
  }

  // ---- The cache ----

  /** Why a read fails. */
  datatype ReadError = OutOfRange | SizeMismatch | StoreFailed

  /** The blocks found, and the indexes of those that are not. */
  function Missing(found: seq<Option<Bytes>>, first: nat): (r: seq<nat>)
  {
    if found == [] then []
    else
      var n := |found| - 1;
      Missing(found[..n], first) + if found[n].None? then [first + n] else []
  }

  lemma {:induction false} MissingInside(found: seq<Option<Bytes>>, first: nat)
    ensures |Missing(found, first)| <= |found|
    ensures forall k :: 0 <= k < |Missing(found, first)| ==> first <= Missing(found, first)[k] < first + |found|
  {
    if found != [] {
      MissingInside(found[..|found| - 1], first);
    }
  }

  lemma {:induction false} MissingAscends(found: seq<Option<Bytes>>, first: nat)
    ensures Ascending(Missing(found, first))
  {
    if found != [] {
      var front := found[..|found| - 1];
      MissingInside(front, first);
      MissingAscends(front, first);
    }
  }

  /** The blocks that were not found are missing, and no others. */
  lemma {:induction false} MissingAre(found: seq<Option<Bytes>>, first: nat, k: nat)
    requires k < |found|
    ensures first + k in Missing(found, first) <==> found[k].None?
  {
    var n := |found| - 1;
    MissingInside(found[..n], first);
    if k < n {
      MissingAre(found[..n], first, k);
    }
  }

  /** The cache over a store of immutable objects. Its entries may be evicted or damaged between calls
      (`Evict`, `Damage`); `gets` and `heads` count the requests made, `storeFailures` those the store
      failed for a reason of its own. */
  class RangeCache {
    const objects: map<Path, Bytes>
    const size: nat
    const crc: Checksum
    var blocks: map<(Path, nat), Bytes>
    var sizes: map<Path, nat>
    var hits: nat
    var misses: nat
    var checksumFailures: nat
    var cacheErrors: nat
    var gets: nat
    var heads: nat
    var storeFailures: nat

    /** Intact entries of the right length are true blocks. */
    ghost predicate Valid()
      reads this`blocks
    {
      size > 0 && forall path, i ::
        (path, i) in blocks && path in objects && Offset(size, i) < |objects[path]| ==>
          RightIfIntact(path, i, blocks[(path, i)])
    }

    ghost predicate RightIfIntact(path: Path, i: nat, sealed: Bytes)
      requires path in objects && Offset(size, i) < |objects[path]|
    {
      var data := Verify(crc, sealed);
      data.Some? && |data.value| == Expected(size, |objects[path]|, i) ==> data.value == Block(objects[path], size, i)
    }

    /** Block `i` is cached, intact, and as long as an object of `total` bytes has it. */
    ghost predicate Usable(blocks: map<(Path, nat), Bytes>, path: Path, i: nat, total: nat) {
      (path, i) in blocks && var data := Verify(crc, blocks[(path, i)]);
      data.Some? && |data.value| == Expected(size, total, i)
    }

    /** Blocks `first` to `end - 1` can be used. */
    ghost predicate Warm(blocks: map<(Path, nat), Bytes>, path: Path, first: nat, end: nat, total: nat)
      decreases end
    {
      end <= first || (Usable(blocks, path, end - 1, total) && Warm(blocks, path, first, end - 1, total))
    }

    lemma {:induction false} WarmSame(
      a: map<(Path, nat), Bytes>, b: map<(Path, nat), Bytes>, path: Path, first: nat, end: nat, total: nat)
      requires Warm(a, path, first, end, total)
      requires forall i: nat :: first <= i < end && (path, i) in a ==> (path, i) in b && b[(path, i)] == a[(path, i)]
      ensures Warm(b, path, first, end, total)
      decreases end
    {
      if first < end { WarmSame(a, b, path, first, end - 1, total); }
    }

    /** The blocks of `run` up to the last of `fetched` are those of the object, and cached. */
    ghost predicate Fetched(
      before: map<(Path, nat), Bytes>, after: map<(Path, nat), Bytes>, path: Path, run: Range, fetched: seq<Bytes>)
      requires path in objects
    {
      && Added(before, after, path, run) && Warm(after, path, run.start, run.start + |fetched|, |objects[path]|)
      && AllBlocks(objects[path], size, run.start, fetched)
    }

    lemma FetchedNone(before: map<(Path, nat), Bytes>, path: Path, run: Range)
      requires path in objects
      ensures Fetched(before, before, path, run, [])
    {
    }

    lemma FetchedMore(
      before: map<(Path, nat), Bytes>, after: map<(Path, nat), Bytes>, path: Path, run: Range, fetched: seq<Bytes>,
      block: Bytes)
      requires path in objects && Fetched(before, after, path, run, fetched) && run.start + |fetched| < run.end
      requires IsBlock(objects[path], size, run.start + |fetched|, block)
      ensures Fetched(
                before, after[(path, run.start + |fetched|) := Seal(crc, block)], path, run, fetched + [block])
    {
      hide *;
      var i := run.start + |fetched|;
      AreFetched(before, after, path, run, fetched);
      AddedOne(before, after, path, run, i, Seal(crc, block));
      WarmMore(path, run.start, i, block, after);
      MoreBlocks(objects[path], size, run.start, fetched, block);
      AreFetched(before, after[(path, i) := Seal(crc, block)], path, run, fetched + [block]);
    }

    lemma AreFetched(
      before: map<(Path, nat), Bytes>, after: map<(Path, nat), Bytes>, path: Path, run: Range, fetched: seq<Bytes>)
      requires path in objects
      ensures Fetched(before, after, path, run, fetched) <==>
              && Added(before, after, path, run) && Warm(after, path, run.start, run.start + |fetched|, |objects[path]|)
              && AllBlocks(objects[path], size, run.start, fetched)
    {
      hide Added, Warm, AllBlocks;
    }

    lemma WarmMore(path: Path, from: nat, i: nat, block: Bytes, before: map<(Path, nat), Bytes>)
      requires path in objects && IsBlock(objects[path], size, i, block)
      requires Warm(before, path, from, i, |objects[path]|)
      ensures Warm(before[(path, i) := Seal(crc, block)], path, from, i + 1, |objects[path]|)
    {
      SealVerifies(crc, block);
      hide Seal, Verify;
      WarmSame(before, before[(path, i) := Seal(crc, block)], path, from, i, |objects[path]|);
    }

    /** The store has the object, and it is as long as claimed. */
    ghost predicate Claimed(path: Path, total: nat) {
      path in objects && |objects[path]| == total
    }

    /** Every block found can be used. */
    ghost predicate Present(
      blocks: map<(Path, nat), Bytes>, path: Path, first: nat, found: seq<Option<Bytes>>, total: nat)
    {
      forall k: nat :: k < |found| && found[k].Some? ==> Usable(blocks, path, first + k, total)
    }

    /** The blocks found are those that could be used. */
    ghost predicate FoundExactly(
      blocks: map<(Path, nat), Bytes>, path: Path, first: nat, found: seq<Option<Bytes>>, total: nat)
    {
      forall k: nat :: k < |found| ==> (found[k].Some? <==> Usable(blocks, path, first + k, total))
    }

    lemma FoundNone(blocks: map<(Path, nat), Bytes>, path: Path, first: nat, total: nat)
      ensures Added(blocks, blocks, path, Range(first, first)) && Present(blocks, path, first, [], total)
      ensures FoundExactly(blocks, path, first, [], total)
    {
    }

    /** Looking up one more block leaves the others alone. */
    lemma FoundMore(
      before: map<(Path, nat), Bytes>, now: map<(Path, nat), Bytes>, after: map<(Path, nat), Bytes>, path: Path,
      first: nat, found: seq<Option<Bytes>>, total: nat, block: Option<Bytes>)
      requires var i := first + |found|;
               && Added(before, now, path, Range(first, i)) && Present(now, path, first, found, total)
               && (after == now || after == now - {(path, i)})
               && (block.Some? ==> after == now && Usable(now, path, i, total))
      ensures Added(before, after, path, Range(first, first + |found + [block]|))
      ensures Present(after, path, first, found + [block], total)
      ensures FoundExactly(before, path, first, found, total)
              && (block.Some? <==> Usable(now, path, first + |found|, total)) ==>
                FoundExactly(before, path, first, found + [block], total)
    {
      hide *;
      AddedLess(before, now, after, path, first, first + |found|);
      PresentMore(now, after, path, first, found, total, block);
      ExactMore(before, now, path, first, found, total, block);
    }

    lemma PresentMore(
      now: map<(Path, nat), Bytes>, after: map<(Path, nat), Bytes>, path: Path, first: nat,
      found: seq<Option<Bytes>>, total: nat, block: Option<Bytes>)
      requires var i := first + |found|;
               && Present(now, path, first, found, total) && (after == now || after == now - {(path, i)})
               && (block.Some? ==> after == now && Usable(now, path, i, total))
      ensures Present(after, path, first, found + [block], total)
    {
      hide Verify, Expected;
      var all := found + [block];
      forall k: nat | k < |all| && all[k].Some? ensures Usable(after, path, first + k, total) {
        if k < |found| { assert Usable(now, path, first + k, total); }
      }
    }

    lemma ExactMore(
      before: map<(Path, nat), Bytes>, now: map<(Path, nat), Bytes>, path: Path, first: nat,
      found: seq<Option<Bytes>>, total: nat, block: Option<Bytes>)
      requires Added(before, now, path, Range(first, first + |found|))
      ensures FoundExactly(before, path, first, found, total)
              && (block.Some? <==> Usable(now, path, first + |found|, total)) ==>
                FoundExactly(before, path, first, found + [block], total)
    {
      hide Usable, Added;
      SameUsable(before, now, path, Range(first, first + |found|), first + |found|, total);
    }

    lemma SameUsable(
      before: map<(Path, nat), Bytes>, now: map<(Path, nat), Bytes>, path: Path, run: Range, i: nat, total: nat)
      requires Added(before, now, path, run) && !(run.start <= i < run.end)
      ensures Usable(now, path, i, total) <==> Usable(before, path, i, total)
    {
      hide Verify, Expected;
      assert (path, i) in now <==> (path, i) in before;
    }

    /** Fetching a run leaves the blocks outside it alone. */
    lemma FilledMore(
      before: map<(Path, nat), Bytes>, after: map<(Path, nat), Bytes>, path: Path, first: nat,
      found: seq<Option<Bytes>>, filled: seq<Option<Bytes>>, run: Range, total: nat)
      requires Present(before, path, first, found, total) && Added(before, after, path, run)
      requires Warm(after, path, run.start, run.end, total) && |filled| == |found|
      requires forall k: nat :: k < |found| && !(run.start <= first + k < run.end) ==> filled[k] == found[k]
      ensures Present(after, path, first, filled, total)
    {
      hide Verify, Expected, Warm;
      forall k: nat | k < |filled| && filled[k].Some? ensures Usable(after, path, first + k, total) {
        if run.start <= first + k < run.end {
          WarmAt(after, path, run.start, run.end, total, first + k);
        } else {
          assert Usable(before, path, first + k, total);
        }
      }
    }

    lemma {:induction false} WarmAt(
      blocks: map<(Path, nat), Bytes>, path: Path, first: nat, end: nat, total: nat, i: nat)
      requires Warm(blocks, path, first, end, total) && first <= i < end
      ensures Usable(blocks, path, i, total)
    {
      hide Usable;
      if i < end - 1 { WarmAt(blocks, path, first, end - 1, total, i); }
    }

    lemma {:induction false} AllWarm(
      blocks: map<(Path, nat), Bytes>, path: Path, first: nat, found: seq<Option<Bytes>>, total: nat, n: nat)
      requires Present(blocks, path, first, found, total) && n <= |found|
      requires forall k :: 0 <= k < |found| ==> found[k].Some?
      ensures Warm(blocks, path, first, first + n, total)
    {
      hide Usable;
      if n > 0 {
        AllWarm(blocks, path, first, found, total, n - 1);
        assert found[n - 1].Some? && Usable(blocks, path, first + (n - 1), total);
      }
    }

    /** `missing` are the blocks of `first` to `end - 1` that could not be used. */
    ghost predicate MissingExactly(
      blocks: map<(Path, nat), Bytes>, path: Path, first: nat, end: nat, total: nat, missing: seq<nat>)
    {
      forall i: nat :: i in missing <==> first <= i < end && !Usable(blocks, path, i, total)
    }

    lemma NoneMissing(
      blocks: map<(Path, nat), Bytes>, path: Path, first: nat, end: nat, total: nat, missing: seq<nat>)
      requires MissingExactly(blocks, path, first, end, total, missing) && Warm(blocks, path, first, end, total)
      ensures missing == []
    {
      hide Usable, Warm;
      if missing != [] {
        assert missing[0] in missing;
        WarmAt(blocks, path, first, end, total, missing[0]);
      }
    }

    lemma MissingOfFound(
      blocks: map<(Path, nat), Bytes>, path: Path, first: nat, found: seq<Option<Bytes>>, total: nat)
      requires FoundExactly(blocks, path, first, found, total)
      ensures MissingExactly(blocks, path, first, first + |found|, total, Missing(found, first))
    {
      hide Usable, Missing;
      forall i: nat
        ensures i in Missing(found, first) <==> first <= i < first + |found| && !Usable(blocks, path, i, total)
      {
        if first <= i < first + |found| {
          MissingAre(found, first, i - first);
          assert found[i - first].Some? <==> Usable(blocks, path, first + (i - first), total);
        } else {
          MissingInside(found, first);
        }
      }
    }

    /** Every intact entry is a true block: so it is as long as damage breaks checksums. */
    ghost predicate Sound()
      reads this`blocks
    {
      forall path, i :: (path, i) in blocks ==> SoundEntry(path, i, blocks[(path, i)])
    }

    ghost predicate SoundEntry(path: Path, i: nat, sealed: Bytes)
    {
      var data := Verify(crc, sealed);
      data.Some? ==> path in objects && IsBlock(objects[path], size, i, data.value)
    }

    /** Every remembered size is the object's. */
    ghost predicate SizesTrue()
      reads this`sizes
    {
      forall path :: path in sizes ==> path in objects && sizes[path] == |objects[path]|
    }

    /** Why a read of `total` claimed bytes can be trusted. */
    ghost predicate Trusted(path: Path, total: nat)
      reads this`blocks
    {
      (path in objects && total == |objects[path]|) || Sound()
    }

    constructor (objects: map<Path, Bytes>, size: nat, crc: Checksum)
      requires size > 0
      ensures Valid() && this.objects == objects && this.size == size && this.crc == crc && blocks == map[]
               && sizes == map[]
    {
      this.objects, this.size, this.crc := objects, size, crc;
      blocks, sizes, hits, misses, checksumFailures, cacheErrors := map[], map[], 0, 0, 0, 0;
      gets, heads, storeFailures := 0, 0, 0;
    }

    /** Block `index` if it is cached, intact and of the expected length; a damaged one is evicted. */
    method CachedBlock(path: Path, index: nat, total: nat) returns (r: Option<Bytes>)
      requires Valid() && Offset(size, index) < total
      modifies this`blocks, this`hits, this`checksumFailures, this`cacheErrors
      ensures Valid() && (old(Sound()) ==> Sound())
      ensures hits == old(hits) + if r.Some? then 1 else 0
      ensures cacheErrors >= old(cacheErrors)
      ensures r.Some? <==> Usable(old(blocks), path, index, total) && cacheErrors == old(cacheErrors)
      ensures blocks == if cacheErrors > old(cacheErrors) || r.Some? then old(blocks) else old(blocks) - {(path, index)}
      ensures checksumFailures == old(checksumFailures)
                                  + if (path, index) in old(blocks) && (path, index) !in blocks then 1 else 0
      ensures r.Some? ==> |r.value| == Expected(size, total, index)
      ensures r.Some? && old(Trusted(path, total)) ==> path in objects && IsBlock(objects[path], size, index, r.value)
    {
      var key := (path, index);
      if * {
        cacheErrors := cacheErrors + 1;
        return None;
      }
      if key !in blocks {
        assert blocks - {key} == blocks;
        return None;
      }
      var data := Verify(crc, blocks[key]);
      if data.Some? && |data.value| == Min(size, total - Offset(size, index)) {
        assert SoundEntry(path, index, blocks[key]) || !Sound();
        hits := hits + 1;
        return data;
      }
      checksumFailures := checksumFailures + 1;
      blocks := blocks - {key};
      return None;
    }

    /** A ranged GET: the bytes there are, and the object's size. */
    method Get(path: Path, start: nat, end: nat) returns (r: Option<(Bytes, nat)>)
      requires start < end
      modifies this`gets, this`storeFailures
      ensures gets == old(gets) + 1
      ensures storeFailures >= old(storeFailures)
      ensures r.Some? <==> storeFailures == old(storeFailures) && path in objects && start < |objects[path]|
      ensures r.Some? ==>
                && path in objects && start < |objects[path]|
                && r.value == (objects[path][start..Min(end, |objects[path]|)], |objects[path]|)
    {
      gets := gets + 1;
      if * {
        storeFailures := storeFailures + 1;
        return None;
      }
      if path !in objects || start >= |objects[path]| {
        return None;
      }
      r := Some((objects[path][start..Min(end, |objects[path]|)], |objects[path]|));
    }

    /** The blocks of `run` with one GET, checked against the claimed size, and cached. */
    method FetchRun(path: Path, run: Range, total: nat) returns (r: Result<seq<Bytes>, ReadError>)
      requires Valid() && run.start < run.end && Offset(size, run.end - 1) < total
      modifies this`blocks, this`misses, this`gets, this`storeFailures
      ensures Valid() && (old(Sound()) ==> Sound())
      ensures gets == old(gets) + 1 && misses == old(misses) + (run.end - run.start)
      ensures storeFailures >= old(storeFailures) && (r.Err? ==> r.error != OutOfRange)
      ensures r.Ok? <==> storeFailures == old(storeFailures) && Claimed(path, total)
      ensures r.Ok? ==>
                && path in objects && |objects[path]| == total && |r.value| == run.end - run.start
                && Fetched(old(blocks), blocks, path, run, r.value)
      ensures r.Err? ==> blocks == old(blocks)
      ensures r == Err(SizeMismatch) <==>
                && storeFailures == old(storeFailures) && path in objects && !Claimed(path, total)
                && Offset(size, run.start) < |objects[path]|
    {
      assert size > 0;
      hide IsBlock, Block, Offset, Seal, Verify, Valid, Sound, Fetched, IsRun;
      var start := Offset(size, run.start);
      var end := Min(Offset(size, run.end), total);
      RunBounds(size, total, run);
      misses := misses + (run.end - run.start);
      var got := Get(path, start, end);
      if got.None? {
        return Err(StoreFailed);
      }
      var (data, actual) := got.value;
      if |data| != end - start || actual != total {
        return Err(SizeMismatch);
      }
      RunIs(objects[path], size, run, data);
      var fetched := CacheRun(path, run, data);
      r := Ok(fetched);
    }

    /** Cuts the bytes of `run` into blocks and caches each. */
    method CacheRun(path: Path, run: Range, data: Bytes) returns (fetched: seq<Bytes>)
      requires Valid() && size > 0 && run.start < run.end && path in objects
      requires IsRun(objects[path], size, run, data)
      modifies this`blocks
      ensures Valid() && (old(Sound()) ==> Sound()) && |fetched| == run.end - run.start
      ensures Fetched(old(blocks), blocks, path, run, fetched)
    {
      hide *;
      fetched := [];
      FetchedNone(blocks, path, run);
      for k := 0 to run.end - run.start
        invariant |fetched| == k && Valid() && (old(Sound()) ==> Sound())
        invariant Fetched(old(blocks), blocks, path, run, fetched)
      {
        ghost var before := blocks;
        var block := CacheBlock(path, run, k, data);
        FetchedMore(old(blocks), before, path, run, fetched, block);
        fetched := fetched + [block];
      }
    }

    /** Cuts block `k` of `run` out of its bytes and caches it. */
    method CacheBlock(path: Path, run: Range, k: nat, data: Bytes) returns (block: Bytes)
      requires Valid() && size > 0 && run.start + k < run.end && path in objects
      requires IsRun(objects[path], size, run, data)
      modifies this`blocks
      ensures Valid() && (old(Sound()) ==> Sound()) && IsBlock(objects[path], size, run.start + k, block)
      ensures blocks == old(blocks)[(path, run.start + k) := Seal(crc, block)]
    {
      hide *;
      var index, start, total := run.start + k, Offset(size, run.start), |objects[path]|;
      FetchedBlock(objects[path], size, run, k, data);
      block := data[Offset(size, index) - start..Min(Offset(size, index + 1), total) - start];
      Insert(path, index, block);
    }

    /** A block found or fetched: of the expected length, and true if the read can be trusted. */
    ghost predicate Right(trusted: bool, path: Path, total: nat, i: nat, data: Bytes) {
      |data| == Expected(size, total, i) && (trusted ==> path in objects && IsBlock(objects[path], size, i, data))
    }

    ghost predicate AllRight(trusted: bool, path: Path, total: nat, first: nat, found: seq<Option<Bytes>>) {
      forall k: nat :: k < |found| && found[k].Some? ==> Right(trusted, path, total, first + k, found[k].value)
    }

    /** Looks up blocks `first` to `first + n - 1`. */
    method FindCached(path: Path, first: nat, n: nat, total: nat) returns (found: seq<Option<Bytes>>)
      requires Valid() && n > 0 && Offset(size, first + n - 1) < total
      modifies this`blocks, this`hits, this`checksumFailures, this`cacheErrors
      ensures Valid() && (old(Sound()) ==> Sound()) && |found| == n
      ensures AllRight(old(Trusted(path, total)), path, total, first, found)
      ensures hits == old(hits) + n - |Missing(found, first)| && |Missing(found, first)| <= n
      ensures Present(blocks, path, first, found, total) && cacheErrors >= old(cacheErrors)
      ensures cacheErrors == old(cacheErrors) ==> FoundExactly(old(blocks), path, first, found, total)
    {
      hide Offset, Valid, Sound, Expected, IsBlock, Added, Present, FoundExactly, Usable;
      found := [];
      FoundNone(blocks, path, first, total);
      for k := 0 to n
        invariant |found| == k && Valid() && (old(Sound()) ==> Sound())
        invariant AllRight(old(Trusted(path, total)), path, total, first, found)
        invariant |Missing(found, first)| <= k && hits == old(hits) + k - |Missing(found, first)|
        invariant Added(old(blocks), blocks, path, Range(first, first + |found|))
        invariant Present(blocks, path, first, found, total) && cacheErrors >= old(cacheErrors)
        invariant cacheErrors == old(cacheErrors) ==> FoundExactly(old(blocks), path, first, found, total)
      {
        OffsetBelow(size, first + k, first + n - 1, total);
        ghost var before := blocks;
        var block := CachedBlock(path, first + k, total);
        FoundMore(old(blocks), before, blocks, path, first, found, total, block);
        assert (found + [block])[..k] == found;
        found := found + [block];
      }
    }

    /** Fetches each run of missing blocks with one GET and puts its blocks in their places. */
    method FetchMissing(
      path: Path, first: nat, found: seq<Option<Bytes>>, runs: seq<Range>, total: nat, ghost trusted: bool)
      returns (r: Result<seq<Option<Bytes>>, ReadError>)
      requires Valid() && AllRight(trusted, path, total, first, found)
      requires forall j :: 0 <= j < |runs| ==> first <= runs[j].start < runs[j].end <= first + |found|
      requires found != [] ==> Offset(size, first + |found| - 1) < total
      requires Present(blocks, path, first, found, total)
      modifies this`blocks, this`misses, this`gets, this`storeFailures
      ensures Valid() && (old(Sound()) ==> Sound())
      ensures storeFailures >= old(storeFailures) && (r.Err? ==> r.error != OutOfRange)
      ensures r.Ok? <==> storeFailures == old(storeFailures) && (runs == [] || Claimed(path, total))
      ensures runs == [] ==> r.Ok? && gets == old(gets)
      ensures r.Ok? ==> |r.value| == |found| && Present(blocks, path, first, r.value, total)
      ensures r.Ok? ==>
                && |r.value| == |found| && AllRight(trusted, path, total, first, r.value)
                && Filled(found, r.value, runs, first)
                && gets == old(gets) + |runs| && misses == old(misses) + |RowIds(runs)|
                && (runs != [] ==> path in objects && |objects[path]| == total)
    {
      hide Offset, Valid, Sound, Expected, IsBlock, AllRight, RowIds, Span, Present, Warm, AllBlocks, Added;
      NoRows(runs);
      var filled := found;
      for j := 0 to |runs|
        invariant |filled| == |found| && Valid() && (old(Sound()) ==> Sound())
        invariant AllRight(trusted, path, total, first, filled)
        invariant forall k: nat :: k < |found| && (found[k].Some? || first + k in RowIds(runs[..j])) ==> filled[k].Some?
        invariant gets == old(gets) + j && misses == old(misses) + |RowIds(runs[..j])|
        invariant storeFailures == old(storeFailures) && Present(blocks, path, first, filled, total)
        invariant j > 0 ==> path in objects && |objects[path]| == total
      {
        var run := runs[j];
        ghost var before, was := blocks, filled;
        OneMoreRun(runs, j);
        OffsetBelow(size, run.end - 1, first + |found| - 1, total);
        var fetched := FetchRun(path, run, total);
        if fetched.Err? {
          return Err(fetched.error);
        }
        AreFetched(before, blocks, path, run, fetched.value);
        filled := FillIn(filled, run.start - first, fetched.value, path, total, first, trusted);
        FilledMore(before, blocks, path, first, was, filled, run, total);
      }
      assert runs[..|runs|] == runs;
      r := Ok(filled);
    }

    /** Puts the blocks of one run in their places. */
    method FillIn(
      found: seq<Option<Bytes>>, at: nat, fetched: seq<Bytes>, ghost path: Path, ghost total: nat, ghost first: nat,
      ghost trusted: bool)
      returns (filled: seq<Option<Bytes>>)
      requires at + |fetched| <= |found| && path in objects && |objects[path]| == total
      requires AllRight(trusted, path, total, first, found)
      requires AllBlocks(objects[path], size, first + at, fetched)
      ensures |filled| == |found| && AllRight(trusted, path, total, first, filled)
      ensures forall k: nat :: k < |found| && !(at <= k < at + |fetched|) ==> filled[k] == found[k]
      ensures forall k: nat :: k < |found| && (found[k].Some? || at <= k < at + |fetched|) ==> filled[k].Some?
    {
      filled := found;
      for k := 0 to |fetched|
        invariant |filled| == |found| && AllRight(trusted, path, total, first, filled)
        invariant forall j: nat :: j < |found| && (found[j].Some? || at <= j < at + k) ==> filled[j].Some?
        invariant forall j: nat :: j < |found| && !(at <= j < at + k) ==> filled[j] == found[j]
      {
        assert IsBlock(objects[path], size, first + at + k, fetched[k]);
        assert Right(trusted, path, total, first + (at + k), fetched[k]);
        filled := filled[at + k := Some(fetched[k])];
      }
    }

    /** Reads `start..end` of the object at `path`, which is claimed to be `total` bytes. A successful
        read returns exactly those bytes of the object, after one GET for each maximal run of missing
        blocks; `missing` are the blocks that were not found. */
    method ReadSized(path: Path, total: nat, start: nat, end: nat)
      returns (r: Result<(Bytes, bool), ReadError>, ghost missing: seq<nat>)
      requires Valid() && total <= U64_MAX
      modifies this`blocks, this`hits, this`misses, this`checksumFailures, this`cacheErrors, this`gets,
               this`storeFailures
      ensures Valid() && (old(Sound()) ==> Sound())
      ensures r == Err(OutOfRange) <==> start > end || end > total
      ensures r.Ok? && start == end ==> r.value == ([], false) && gets == old(gets)
      ensures r.Ok? && start < end && old(Trusted(path, total)) ==>
                path in objects && end <= |objects[path]| && r.value.0 == objects[path][start..end]
      ensures r.Ok? ==> r.value.1 == (missing != []) && (r.value.1 <==> gets > old(gets))
      ensures r.Ok? && r.value.1 ==> path in objects && |objects[path]| == total
      ensures r.Ok? ==> Enumerates(Runs(missing), missing)
      ensures r.Ok? ==> gets == old(gets) + |Runs(missing)| && misses == old(misses) + |missing|
      ensures missing == [] ==> gets == old(gets)
      ensures r.Ok? && start < end ==>
                hits == old(hits) + (BlockOf(size, end - 1) + 1 - BlockOf(size, start)) - |missing|
      ensures storeFailures >= old(storeFailures) && cacheErrors >= old(cacheErrors)
      ensures r.Ok? <==>
                start <= end <= total && storeFailures == old(storeFailures) && (missing == [] || Claimed(path, total))
      ensures start == end ==> missing == []
      ensures start < end <= total && cacheErrors == old(cacheErrors) ==>
                MissingExactly(
                  old(blocks), path, BlockOf(size, start), BlockOf(size, end - 1) + 1, total, missing)
      ensures r.Ok? && start < end ==> Warm(blocks, path, BlockOf(size, start), BlockOf(size, end - 1) + 1, total)
      ensures start < end <= total && cacheErrors == old(cacheErrors)
              && Warm(old(blocks), path, BlockOf(size, start), BlockOf(size, end - 1) + 1, total) ==>
                r.Ok? && missing == [] && gets == old(gets)
    {
      missing := [];
      NoRuns();
      if start > end || end > total {
        return Err(OutOfRange), missing;
      }
      if start == end {
        return Ok(([], false)), missing;
      }
      r, missing := ReadBlocks(path, total, start, end);
      ghost var first, past := BlockOf(size, start), BlockOf(size, end - 1) + 1;
      if cacheErrors == old(cacheErrors) && Warm(old(blocks), path, first, past, total) {
        NoneMissing(old(blocks), path, first, past, total, missing);
      }
    }

    /** The cache drops an entry. */
    method Evict(path: Path, i: nat)
      requires Valid()
      modifies this`blocks
      ensures Valid() && (old(Sound()) ==> Sound()) && blocks == old(blocks) - {(path, i)}
    {
      blocks := blocks - {(path, i)};
    }

    /** An entry's bytes turn into some that fail the checksum. */
    method Damage(path: Path, i: nat, bytes: Bytes)
      requires Valid() && Verify(crc, bytes).None?
      modifies this`blocks
      ensures Valid() && (old(Sound()) ==> Sound()) && blocks == old(blocks)[(path, i) := bytes]
    {
      blocks := blocks[(path, i) := bytes];
    }

    /** The size of an object, remembered after the first lookup. */
    method Size(path: Path) returns (r: Result<nat, ReadError>)
      requires SizesTrue()
      modifies this`sizes, this`heads, this`storeFailures
      ensures SizesTrue() && storeFailures >= old(storeFailures)
      ensures r.Ok? <==> storeFailures == old(storeFailures) && path in objects
      ensures r.Ok? ==> r.value == |objects[path]| && sizes == old(sizes)[path := r.value]
      ensures r.Err? ==> r.error == StoreFailed && sizes == old(sizes)
      ensures heads == old(heads) + if path in old(sizes) then 0 else 1
    {
      if path in sizes {
        assert sizes == sizes[path := sizes[path]];
        return Ok(sizes[path]);
      }
      heads := heads + 1;
      if * {
        storeFailures := storeFailures + 1;
        return Err(StoreFailed);
      }
      if path !in objects {
        return Err(StoreFailed);
      }
      sizes := sizes[path := |objects[path]|];
      r := Ok(|objects[path]|);
    }

    /** Reads `start..end` of the object at `path`: exactly those bytes, or an error. */
    method Read(path: Path, start: nat, end: nat) returns (r: Result<Bytes, ReadError>)
      requires Valid() && SizesTrue() && (path in objects ==> |objects[path]| <= U64_MAX)
      modifies this
      ensures Valid() && SizesTrue() && (old(Sound()) ==> Sound())
      ensures storeFailures >= old(storeFailures)
      ensures r.Ok? <==>
                storeFailures == old(storeFailures) && path in objects && start <= end <= |objects[path]|
      ensures r.Ok? ==> r.value == objects[path][start..end]
      ensures storeFailures == old(storeFailures) && path in objects && r.Err? ==> r.error == OutOfRange
      ensures heads == old(heads) + if path in old(sizes) then 0 else 1
    {
      hide Valid, Sound, Enumerates, Runs;
      var total := Size(path);
      if total.Err? {
        return Err(total.error);
      }
      var got, _ := ReadSized(path, total.value, start, end);
      r := if got.Ok? then Ok(got.value.0) else Err(got.error);
    }

    /** Reads with a size the caller claims. A claim that contradicts a remembered size is refused, and
        one that a GET confirmed is remembered. */
    method ReadWithSize(path: Path, total: nat, start: nat, end: nat) returns (r: Result<Bytes, ReadError>)
      requires Valid() && SizesTrue() && total <= U64_MAX
      modifies this
      ensures Valid() && SizesTrue() && (old(Sound()) ==> Sound())
      ensures path in old(sizes) && old(sizes)[path] != total ==> r == Err(SizeMismatch) && gets == old(gets)
      ensures heads == old(heads) && storeFailures >= old(storeFailures)
      ensures storeFailures == old(storeFailures) && Claimed(path, total) ==> (r.Ok? <==> start <= end <= total)
      ensures sizes == if r.Ok? && gets > old(gets) then old(sizes)[path := total] else old(sizes)
      ensures r.Ok? && start < end && (old(Sound()) || (path in objects && total == |objects[path]|)) ==>
                path in objects && end <= |objects[path]| && r.value == objects[path][start..end]
    {
      hide Valid, Sound, Enumerates, Runs, BlockOf, Warm, MissingExactly;
      if path in sizes && sizes[path] != total {
        return Err(SizeMismatch);
      }
      var got, _ := ReadSized(path, total, start, end);
      if got.Err? {
        return Err(got.error);
      }
      if got.value.1 {
        sizes := sizes[path := total];
      }
      r := Ok(got.value.0);
    }

    /** The read of a range that is not empty. */
    method ReadBlocks(path: Path, total: nat, start: nat, end: nat)
      returns (r: Result<(Bytes, bool), ReadError>, ghost missing: seq<nat>)
      requires Valid() && size > 0 && start < end <= total <= U64_MAX
      modifies this`blocks, this`hits, this`misses, this`checksumFailures, this`cacheErrors, this`gets,
               this`storeFailures
      ensures Valid() && (old(Sound()) ==> Sound())
      ensures r != Err(OutOfRange)
      ensures r.Ok? && old(Trusted(path, total)) ==>
                path in objects && end <= |objects[path]| && r.value.0 == objects[path][start..end]
      ensures r.Ok? ==> r.value.1 == (missing != []) && (r.value.1 <==> gets > old(gets))
      ensures r.Ok? && r.value.1 ==> path in objects && |objects[path]| == total
      ensures r.Ok? ==> Enumerates(Runs(missing), missing)
      ensures r.Ok? ==> gets == old(gets) + |Runs(missing)| && misses == old(misses) + |missing|
      ensures missing == [] ==> gets == old(gets) && storeFailures == old(storeFailures)
      ensures r.Ok? ==> hits == old(hits) + (BlockOf(size, end - 1) + 1 - BlockOf(size, start)) - |missing|
      ensures storeFailures >= old(storeFailures) && cacheErrors >= old(cacheErrors)
      ensures r.Ok? <==> storeFailures == old(storeFailures) && (missing == [] || Claimed(path, total))
      ensures var first, past := BlockOf(size, start), BlockOf(size, end - 1) + 1;
              && (cacheErrors == old(cacheErrors) ==> MissingExactly(old(blocks), path, first, past, total, missing))
              && (r.Ok? ==> Warm(blocks, path, first, past, total))
    {
      hide *;
      ghost var trusted := Trusted(path, total);
      var first := BlockOf(size, start);
      var n := BlockOf(size, end - 1) + 1 - first;
      SpansBlocks(size, start, end, total, first, n);
      var found := FindCached(path, first, n, total);
      ghost var content := if path in objects then objects[path] else [];
      missing := Missing(found, first);
      if cacheErrors == old(cacheErrors) { MissingOfFound(old(blocks), path, first, found, total); }
      var all := FetchAll(path, first, found, total, trusted, content);
      if all.Err? {
        return Err(all.error), missing;
      }
      var out := Stitch(content, size, total, first, all.value.0, start, end);
      r := Ok((out, all.value.1));
    }

    /** Fetches what was not found; also says whether there was anything to fetch. */
    method FetchAll(
      path: Path, first: nat, found: seq<Option<Bytes>>, total: nat, ghost trusted: bool, ghost content: Bytes)
      returns (r: Result<(seq<Bytes>, bool), ReadError>)
      requires Valid() && found != [] && first + |found| <= U64_MAX && AllRight(trusted, path, total, first, found)
      requires Offset(size, first + |found| - 1) < total && (path in objects ==> content == objects[path])
      requires Present(blocks, path, first, found, total)
      modifies this`blocks, this`misses, this`gets, this`storeFailures
      ensures Valid() && (old(Sound()) ==> Sound())
      ensures storeFailures >= old(storeFailures) && (r.Err? ==> r.error != OutOfRange)
      ensures r.Ok? <==> storeFailures == old(storeFailures) && (Missing(found, first) == [] || Claimed(path, total))
      ensures r.Ok? ==> Warm(blocks, path, first, first + |found|, total)
      ensures Missing(found, first) == [] ==> r.Ok? && gets == old(gets)
      ensures r.Ok? ==>
                && |r.value.0| == |found| && RightLengths(size, total, first, r.value.0)
                && (trusted ==> path in objects && TrueBlocks(content, size, total, first, r.value.0))
                && r.value.1 == (Missing(found, first) != []) && (r.value.1 <==> gets > old(gets))
                && (r.value.1 ==> path in objects && |objects[path]| == total)
                && Enumerates(Runs(Missing(found, first)), Missing(found, first))
                && gets == old(gets) + |Runs(Missing(found, first))|
                && misses == old(misses) + |Missing(found, first)|
    {
      hide Offset, Valid, Sound, Runs, RowIds, Missing, TrueBlocks, RightLengths, AllRight, Filled, Enumerates, Present,
           Warm;
      MissingRuns(found, first);
      var runs := RunsOf(Missing(found, first));
      var filled := FetchMissing(path, first, found, runs, total, trusted);
      if filled.Err? {
        return Err(filled.error);
      }
      Everything(found, filled.value, runs, first);
      AllWarm(blocks, path, first, filled.value, total, |found|);
      BlocksRight(filled.value, path, total, first, trusted, content);
      r := Ok((Values(filled.value), runs != []));
    }

    lemma BlocksRight(
      filled: seq<Option<Bytes>>, path: Path, total: nat, first: nat, trusted: bool, content: Bytes)
      requires AllRight(trusted, path, total, first, filled) && forall k :: 0 <= k < |filled| ==> filled[k].Some?
      requires path in objects ==> content == objects[path]
      ensures RightLengths(size, total, first, Values(filled))
      ensures trusted && filled != [] ==> path in objects && TrueBlocks(content, size, total, first, Values(filled))
    {
      hide IsBlock, Expected;
      forall k: nat | k < |filled| ensures Right(trusted, path, total, first + k, Values(filled)[k]) {
      }
      if filled != [] { assert Right(trusted, path, total, first + 0, Values(filled)[0]); }
    }

    method Insert(path: Path, index: nat, block: Bytes)
      requires Valid() && path in objects && IsBlock(objects[path], size, index, block)
      modifies this`blocks
      ensures Valid() && (old(Sound()) ==> Sound())
      ensures blocks == old(blocks)[(path, index) := Seal(crc, block)]
    {
      SealVerifies(crc, block);
      blocks := blocks[(path, index) := Seal(crc, block)];
    }
  }

  /** `blocks` are the blocks of `content` from `first` on. */
  ghost predicate AllBlocks(content: Bytes, size: nat, first: nat, blocks: seq<Bytes>) {
    forall k: nat :: k < |blocks| ==> IsBlock(content, size, first + k, blocks[k])
  }

  lemma MoreBlocks(content: Bytes, size: nat, first: nat, blocks: seq<Bytes>, block: Bytes)
    requires AllBlocks(content, size, first, blocks) && IsBlock(content, size, first + |blocks|, block)
    ensures AllBlocks(content, size, first, blocks + [block])
  {
    hide IsBlock;
  }

  /** `after` has the entries of `before`, but for those of `run` at `path`. */
  ghost predicate Added(
    before: map<(Path, nat), Bytes>, after: map<(Path, nat), Bytes>, path: Path, run: Range)
  {
    forall p: Path, i: nat :: !(p == path && run.start <= i < run.end) ==>
      ((p, i) in after <==> (p, i) in before) && ((p, i) in after ==> after[(p, i)] == before[(p, i)])
  }

  lemma AddedLess(
    before: map<(Path, nat), Bytes>, now: map<(Path, nat), Bytes>, after: map<(Path, nat), Bytes>, path: Path,
    first: nat, i: nat)
    requires Added(before, now, path, Range(first, i)) && first <= i
    requires after == now || after == now - {(path, i)}
    ensures Added(before, after, path, Range(first, i + 1))
  {
  }

  lemma AddedOne(
    before: map<(Path, nat), Bytes>, after: map<(Path, nat), Bytes>, path: Path, run: Range, i: nat, sealed: Bytes)
    requires Added(before, after, path, run) && run.start <= i < run.end
    ensures Added(before, after[(path, i) := sealed], path, run)
  {
  }

  function Values(found: seq<Option<Bytes>>): (r: seq<Bytes>)
    requires forall k :: 0 <= k < |found| ==> found[k].Some?
    ensures |r| == |found| && forall k :: 0 <= k < |found| ==> r[k] == found[k].value
  {
    seq(|found|, k requires 0 <= k < |found| => found[k].value)
  }

  lemma NoRuns()
    ensures Enumerates(Runs([]), [])
  {
  }

  lemma SpansBlocks(size: nat, start: nat, end: nat, total: nat, first: nat, n: int)
    requires size > 0 && start < end <= total
    requires first == BlockOf(size, start) && n == BlockOf(size, end - 1) + 1 - first
    ensures n > 0 && Spans(size, first, n, start, end)
    ensures Offset(size, first + n - 1) < total && first + n <= total
  {
    DivMono(start, end - 1, size);
    DivBounds(end - 1, size);
    DivLe(end - 1, size);
  }

  lemma DivMono(a: nat, b: nat, size: nat)
    requires size > 0 && a <= b
    ensures a / size <= b / size
  {
    var p, q := a / size, b / size;
    DivBounds(a, size);
    DivBounds(b, size);
    if p > q { MulLe(q, p, size); }
  }

  lemma DivLe(a: nat, size: nat)
    requires size > 0
    ensures a / size <= a
  {
    DivBounds(a, size);
    MulLe(1, size, a / size);
    assert (a / size) * size == size * (a / size);
  }

  /** Every block that was found, or lies in a run, is there now. */
  ghost predicate Filled(found: seq<Option<Bytes>>, filled: seq<Option<Bytes>>, runs: seq<Range>, first: nat) {
    && |filled| == |found|
    && forall k: nat :: k < |found| && (found[k].Some? || first + k in RowIds(runs)) ==> filled[k].Some?
  }

  /** Every block is found or missing. */
  lemma Everything(found: seq<Option<Bytes>>, filled: seq<Option<Bytes>>, runs: seq<Range>, first: nat)
    requires Filled(found, filled, runs, first) && RowIds(runs) == Missing(found, first)
    ensures forall k :: 0 <= k < |filled| ==> filled[k].Some?
  {
    hide RowIds, Missing;
    forall k: nat | k < |found| ensures filled[k].Some? {
      MissingAre(found, first, k);
    }
  }

  /** The runs of the missing blocks are maximal, cover exactly them, and lie among the blocks. */
  lemma MissingRuns(found: seq<Option<Bytes>>, first: nat)
    requires first + |found| <= U64_MAX
    ensures var runs := Runs(Missing(found, first));
            && Enumerates(runs, Missing(found, first)) && (runs == [] <==> Missing(found, first) == [])
            && RowIds(runs) == Missing(found, first)
            && forall j :: 0 <= j < |runs| ==> first <= runs[j].start < runs[j].end <= first + |found|
  {
    var ids := Missing(found, first);
    MissingInside(found, first);
    MissingAscends(found, first);
    RunsRoundTrip(ids);
    var runs := Runs(ids);
    hide Missing, Runs, RowIds;
    forall j | 0 <= j < |runs| ensures first <= runs[j].start < runs[j].end <= first + |found| {
      RangeRows(runs, j, 0);
      RangeRows(runs, j, runs[j].end - runs[j].start - 1);
    }
  }

  lemma NoRows(runs: seq<Range>)
    ensures RowIds(runs[..0]) == []
  {
  }

  lemma OneMoreRun(runs: seq<Range>, j: nat)
    requires j < |runs| && runs[j].start < runs[j].end
    ensures |RowIds(runs[..j + 1])| == |RowIds(runs[..j])| + (runs[j].end - runs[j].start)
    ensures forall i :: i in RowIds(runs[..j + 1]) ==> i in RowIds(runs[..j]) || runs[j].start <= i < runs[j].end
  {
    assert runs[..j + 1][..j] == runs[..j];
    RowIdsStep(runs[..j + 1]);
    hide RowIds;
  }

  lemma OffsetBelow(size: nat, i: nat, j: nat, total: nat)
    requires i <= j && Offset(size, j) < total
    ensures Offset(size, i) < total
  {
    MulLe(i, j, size);
  }

  lemma RunBounds(size: nat, total: nat, run: Range)
    requires size > 0 && run.start < run.end && Offset(size, run.end - 1) < total
    ensures Offset(size, run.start) < Min(Offset(size, run.end), total)
  {
    MulLe(run.start, run.end - 1, size);
    assert run.end * size == (run.end - 1) * size + size;
  }

  /** `data` is the blocks of `run`, all of which `content` has. */
  ghost predicate IsRun(content: Bytes, size: nat, run: Range, data: Bytes) {
    && run.start < run.end && Offset(size, run.end - 1) < |content|
    && Offset(size, run.start) <= Min(Offset(size, run.end), |content|)
    && data == content[Offset(size, run.start)..Min(Offset(size, run.end), |content|)]
  }

  lemma RunIs(content: Bytes, size: nat, run: Range, data: Bytes)
    requires size > 0 && run.start < run.end && Offset(size, run.end - 1) < |content|
    requires Offset(size, run.start) <= Min(Offset(size, run.end), |content|)
    requires data == content[Offset(size, run.start)..Min(Offset(size, run.end), |content|)]
    ensures IsRun(content, size, run, data)
  {
  }

  /** Block `k` of a run is cut out of the run's bytes right. */
  lemma FetchedBlock(content: Bytes, size: nat, run: Range, k: nat, data: Bytes)
    requires size > 0 && run.start + k < run.end && IsRun(content, size, run, data)
    ensures var index := run.start + k;
            var start := Offset(size, run.start);
            var from, to := Offset(size, index) - start, Min(Offset(size, index + 1), |content|) - start;
            0 <= from <= to <= |data| && IsBlock(content, size, index, data[from..to])
  {
    hide Offset;
    OffsetsInRun(size, run, k);
    OffsetBelow(size, run.start + k, run.end - 1, |content|);
    CutBlock(content, Offset(size, run.start), Offset(size, run.start + k), size, Offset(size, run.end), data);
  }

  lemma OffsetsInRun(size: nat, run: Range, k: nat)
    requires run.start + k < run.end
    ensures var index := run.start + k;
            && Offset(size, run.start) <= Offset(size, index)
            && Offset(size, index + 1) == Offset(size, index) + size <= Offset(size, run.end)
  {
    var index := run.start + k;
    MulLe(run.start, index, size);
    MulLe(index + 1, run.end, size);
    assert (index + 1) * size == index * size + size;
  }

  lemma CutBlock(content: Bytes, a: nat, b: nat, size: nat, d: nat, data: Bytes)
    requires a <= b && b + size <= d && a <= Min(d, |content|) && data == content[a..Min(d, |content|)]
    requires b <= |content|
    ensures 0 <= b - a <= Min(b + size, |content|) - a <= |data|
    ensures data[b - a..Min(b + size, |content|) - a] == content[b..Min(b + size, |content|)]
  {
    SliceOfSlice(content, a, Min(d, |content|), b - a, Min(b + size, |content|) - a);
  }
}
