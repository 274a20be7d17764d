# Loams collections: a verified model

A Loams collection folds an ordered, partitioned stream of document ops into three structures that
must agree: Lance rows, Tantivy split docs with delete bitmaps, and a primary-key (PK) index. They sit
under one manifest, which a versioned compare-and-swap (CAS) makes live; the PK index is written only
after the CAS and repaired after a crash. Index builds, stream trims and garbage collection (GC) work
on the same chain of manifests. This project models that protocol and the code around it in Dafny and
proves what it keeps.

## How the modules fit

- Documents and paths: `Documents` (the patch algebra), `PatchMeaning` (what a patch leaves at every path
  and under every vector name), `Values` (path extraction against the values that stand at a path),
  `DocumentOrder` (the order of both, on objects that keep their members in order).
- One batch: `Resolve` (grouping and folding a batch by key), `Rounds` (the rounds of lookups it is
  resolved in), `Batching` (the one-pass model of the stream, and why cutting the stream into batches
  does not matter), `Letters` (which records become dead letters), `Offsets` (the offsets a batch covers).
- One commit: `RowLocator`, `Splits`, `RowSets`, `Commits` (the next manifest as a function of its
  parent), `CommitSteps` (the same, step by step).
- A chain of commits: `History`, `PkDeltas` (replaying PK deltas), `PkIndexes` (the index, its writes
  and its chunked rebuild).
- Many workers: `Protocol` is a step machine over any number of workers. Its steps are loading a
  parent that may be stale, opening, repairing and rebuilding the PK index, preparing a manifest, the
  CAS (acknowledged or not, sent again, or landing after its worker gave up), recognising a landed CAS,
  the PK write (acknowledged, lost or cancelled), and crashes. `ProtocolSafety` proves its invariant
  over all runs, `ProtocolTheorems` what follows in every reachable state, and `Recovery` that one worker
  can always repair the index and commit the next batch. `CommitTarget` is the target object itself,
  with its mutable parent and PK handle.
- Retention: `Retained` (`retained_chain`, what GC keeps), `Retention` and `RetentionSafety` (a step
  machine of commits with a freshness deadline, the clock, overlapping GC runs and trims, each in the
  separate reads it makes), `RetentionProgress` (what GC and trims get done).
- Both together: `Lifecycle` runs the workers of `Protocol` and the GC and trims of `Retention` side by
  side. `ConsistentReads` says what waiting for a write's token shows a reader.
- Around it: `RangeCaches`, `Decimals`, `Tokens`, `Writers`, `CloudEvents`, `PrimaryKeys`.
- `Prelude`, `Strings`, `Sorting` and `KeyOrders` are shared.

## What is assumed of the surroundings

- The metastore applies a CAS atomically, but any answer may be lost, and a command may be applied long
  after its sender gave up. One PK index write is atomic, and opening a handle fences every earlier one.
- A Lance commit gives every new document one row, with ids its base version never gave (`LanceWrote`;
  `CommitTarget.WriteRows` shows that it can be met).
- Objects are written once, at paths never used before. An object's time is no earlier than the start
  of the commit that wrote it.
- The records of a batch have ascending offsets within a partition, fewer than 2^32 of them, and no
  stream has partition `u32::MAX`.
- The two document validators are one predicate, `Rules.valid`; the partition hash is `Rules.home`.
- A link's batch carries every record of the log at the offsets it covers (`ConsistentReads.CarriesAll`).
- Freshness deadlines are below GC's grace period, and the metastore clock stays below `u64::MAX`.

## Edge cases and disagreements found in the code

- `values.rs:63` says `extract` returns values in document order. It tries the groupings of the dotted path
  from the shortest key on, so a nested value comes before a dotted key that stands earlier
  (`DocumentOrder.NestedBeforeDotted`). It keeps document order if and only if, at every object the path
  leads through, the members it goes on with stand in the order of their keys' lengths
  (`DocumentOrder.ExtractInDocumentOrderIff`); on documents with sorted keys it always does.
- `values.rs:290-292` says the leaf walk takes keys sorted. It takes them as they stand, which is sorted if
  and only if the members that hold leaves are (`DocumentOrder.WalkInKeyOrderIff`, `WalkNotSorted`).
- `runs` (`target.rs:358-368`) is exact unless the last id is `u64::MAX`, whose successor does not exist
  (`RowLocator.RunsExact`).
- `RowLocator::new` accepts a split of exactly 2^32 docs, but a commit that deletes some of its docs and
  not all of them fails, because the count does not fit a `u32` (`Splits.LargestSplitKeepsDocs`,
  `LargestSplitGoesWhole`; the exact condition is `TooLarge` in `Splits.DeleteRows`).
- `resolve` (`target.rs:923`) lets each fetched row be taken once a round. With a corrupt index that gives
  two keys of a batch the same row, a key may go unnoticed whose row is not its own
  (`Rounds.SharedRowPassedOver`). A batch fails if and only if one of its rounds does (`RoundFails`, by
  the order of keys and the size of a round), and an accepted batch passes over a key if and only if the
  key wants a row that an earlier key of its round names (`Rounds.AcceptedUnresolvedIff`).
- A commit that ends in an error may have landed: after a lost answer, after a conflict with a commit on
  top of it, or when the PK write finds itself fenced (`CommitTarget.CollectionTarget.CommitBatch`).
- A patch is idempotent on every existing document. On a missing key one with an upsert document need
  not be (`Documents.PatchOfMissingKeyNotIdempotent`); `Documents.MissingKeyIdempotentIff` says when it is.

- An object is freed only if its time plus the grace period stays below `u64::MAX`: the sum saturates and
  the clock never gets there. Otherwise garbage can always be freed (`RetentionProgress.GarbageIsCollected`).

## Model

| member | source | states |
|---|---|---|
| Documents.MergeDeepInto | crates/loams-collection/src/doc.rs:186-196 | the in-place deep merge gives the merged object: patch members win, two objects merge recursively |
| Documents.DeletedAllIsPruned | crates/loams-collection/src/doc.rs:199-214 | deleting paths one after another removes exactly the members some path names, whatever their order |
| Documents.SetOrRemove | crates/loams-collection/src/doc.rs:216-230 | vectors are set or removed name by name |
| Documents.ApplyPatchSteps | crates/loams-collection/src/doc.rs:149-182 | the patch steps compute the patched document, whose meaning `PatchMeaning.PatchMeans` gives |
| PatchMeaning.PatchMeans | crates/loams-collection/src/doc.rs:149-228 | a patch gives the one document with the same pk, with every vector name as the changes leave it, and at every path nothing if some deleted key leads there or above, else the patch's value, else the old one, mode by mode |
| PatchMeaning.SpotsDecide | crates/loams-collection/src/doc.rs:149-182 | what stands at the paths of a source determines it |
| PatchMeaning.MissingMeans | crates/loams-collection/src/doc.rs:155-167 | on a missing key a patch gives its `upsert` document if and only if that is one of the key |
| Documents.PatchIdempotent | crates/loams-collection/src/doc.rs:149-230 | applying a patch to its own result changes nothing, for all modes, nested sources, deleted paths and vector changes |
| Documents.PatchOfMissingKeyNotIdempotent | crates/loams-collection/src/doc.rs:154-166 | on every missing key some patch with an upsert document is not idempotent |
| Documents.PatchIsNoWriteIff | crates/loams-collection/src/doc.rs:149-230 | a patch leaves a document as it is if and only if the document has what the patch sets and lacks what it removes, for all modes |
| Documents.MissingKeyIdempotentIff | crates/loams-collection/src/doc.rs:154-182 | on a missing key a patch is idempotent if and only if it inserts nothing or a document that already is as the patch would leave it |
| Values.ExtractInto | crates/loams-collection/src/values.rs:73-104 | the recursive loops append exactly the values at the path, grouping by grouping, arrays flattened |
| DocumentOrder.ExtractInDocumentOrderIff | crates/loams-collection/src/values.rs:63-104 | values come in document order if and only if, at every object the path leads through, the members it goes on with stand in the order of their keys' lengths |
| DocumentOrder.ExtractInKeyOrder | crates/loams-collection/src/values.rs:84-90 | values always come in the order of a document with sorted keys |
| DocumentOrder.ExtractOfSorted | crates/loams-collection/src/values.rs:63-104 | on a document with sorted keys they come in document order |
| DocumentOrder.NestedBeforeDotted | crates/loams-collection/src/values.rs:84-90 | a source and a path whose values do not come in document order |
| DocumentOrder.ExtractIsExtract | crates/loams-collection/src/values.rs:73-104 | order forgotten, the values are those of the unordered extraction |
| DocumentOrder.WalkLeaves | crates/loams-collection/src/values.rs:305-325 | the loops visit every scalar once, with its path, members and items as they stand |
| DocumentOrder.ForEachLeaf | crates/loams-collection/src/values.rs:290-303 | the leaves of a source come in document order and, order forgotten, are its leaves |
| DocumentOrder.WalkInKeyOrderIff | crates/loams-collection/src/values.rs:290-292 | they come with keys sorted if and only if, at every object, the members that hold leaves are sorted |
| DocumentOrder.WalkNotSorted | crates/loams-collection/src/values.rs:290-292 | a source whose leaves do not come with keys sorted |
| DocumentOrder.WalkIsWalk | crates/loams-collection/src/values.rs:305-325 | order forgotten, the visits below any value are those of the unordered walk |
| Values.ExtractAgreesWithLeafWalk | crates/loams-collection/src/values.rs:63-104 | for every source and non-empty path, each scalar is extracted exactly as often as the leaf walk visits it at that path |
| Values.ExtractFindsAll | crates/loams-collection/src/values.rs:63-104 | every value that is not an array, null and objects included, is extracted exactly as often as it stands at the path, and no array is |
| RowLocator.CheckRanges | crates/loams-collection/src/manifest.rs:405-428 | accepts exactly the ascending, disjoint, non-empty ranges that hold `doc_count` rows |
| RowLocator.RunsRoundTrip | crates/loams-collection/src/target.rs:358-368 | ascending ids become maximal runs that flatten back to them and pass the range check |
| RowLocator.RunsExact | crates/loams-collection/src/target.rs:358-368 | the runs enumerate the ids if and only if the last id is not `u64::MAX` |
| RowLocator.NewLocator | crates/loams-collection/src/manifest.rs:464-512 | accepts exactly the splits with no empty range, at most 2^32 docs each and no row twice |
| RowLocator.PartitionPoint | crates/loams-collection/src/manifest.rs:516-520 | the binary search splits the ranges at the row |
| RowLocator.Locate | crates/loams-collection/src/manifest.rs:514-525 | finds (split, doc) if and only if the row is that doc in the enumeration of that split's ranges; the doc id fits a `u32` |
| Resolve.FoldLatestWins | crates/loams-collection/src/resolve.rs:12-24 | nothing before an upsert or a delete matters to the fold of any list of ops |
| Resolve.NeedsCurrentIff | crates/loams-collection/src/resolve.rs:5-10 | the committed document is read if and only if the result of the first op depends on it |
| Resolve.FoldKeyFolds | crates/loams-collection/src/target.rs:430-487 | while no patch is dead-lettered, `fold_key` leaves what the plain fold of the ops leaves |
| Resolve.FoldKey | crates/loams-collection/src/target.rs:426-499 | one key's ops fold to the document, its last writer and the dead letters, which `Letters.FoldLettersModel` gives |
| Resolve.GroupByKey | crates/loams-collection/src/target.rs:844-881 | every key gets its accepted ops in order; undecodable, misplaced and invalid records become letters, once each |
| Rounds.ResolveBatch | crates/loams-collection/src/target.rs:832-954 | keys ascending, in rounds of the given size: the batch fails if and only if some round does; otherwise every key is folded from exactly what its round had it start from, and inserts, retired rows and letters follow; where no two keys share a row it fails if and only if some key cannot be resolved |
| Rounds.EndRound | crates/loams-collection/src/target.rs:883-948 | one round fetches the rows it needs, each taken by the first key that names it; it fails if and only if such a row is absent or the key that takes it is not its own |
| Rounds.PassedOverIff | crates/loams-collection/src/target.rs:922-931 | in a round that does not fail, a key whose row is not its own goes unnoticed if and only if it wants that row and an earlier key of the round names it; then, and only then, it starts from nothing |
| Rounds.AcceptedUnresolvedIff | crates/loams-collection/src/target.rs:883-948 | an accepted batch has a key that cannot be resolved if and only if in some round a key wants a row that an earlier key names |
| Rounds.SharedRowPassedOver | crates/loams-collection/src/target.rs:922-931 | two keys of one row: the one that does not own it fails its round alone or first, and is passed over second |
| Resolve.LettersFit | crates/loams-collection/src/target.rs:847-881 | every record is dead-lettered at most once, as multisets |
| Letters.FoldLettersModel | crates/loams-collection/src/target.rs:438-483 | folding a key's ops letters exactly the patches that give, on the model's document just before them, another document that is not valid |
| Letters.LettersAre | crates/loams-collection/src/target.rs:438-483 | the dead letters of a batch are exactly the records that do not decode, are in another partition than their key's, upsert an invalid document, or are such patches |
| Letters.BeforeIsModelFold | crates/loams-collection/src/verify.rs:48-89 | for a whole stream, the model's document just before a record is the one-pass fold of what precedes it |
| Letters.ResolutionLetters | crates/loams-collection/src/target.rs:844-955 | through an exact index a resolution letters exactly those records, as multisets |
| Letters.BatchingKeepsLetters | crates/loams-collection/src/verify.rs:48-89 | every cut of a stream into batches gives the same dead letters, those of the one-pass model |
| Batching.FoldStream | crates/loams-collection/src/verify.rs:48-89 | the loop computes the one-pass model of the stream in partition and offset order |
| Batching.CommitKeyIsModel | crates/loams-collection/src/target.rs:426-499 | committing one key's ops, reading the committed document only when the first op is a patch, leaves what the model leaves |
| Batching.BatchingRefinesStream | crates/loams-collection/src/verify.rs:48-89 | for every stream and every cut into batches, committing the batches leaves each key's document and last writer as the one-pass model does |
| Batching.RedeliveredPatchKeepsWriter | crates/loams-collection/src/target.rs:465-474 | a redelivered patch is not a write and keeps the row's last writer |
| Offsets.SkippedOffsets | crates/loams-collection/src/target.rs:1322-1353 | accepts exactly the batches whose records lie in their partitions' ranges with no partition going back, and counts the offsets without a record |
| Offsets.WindowFits | crates/loams-collection/src/target.rs:1322-1353 | any window of a stream that takes no partition back is accepted, however few records it has |
| Offsets.OffsetsConserved | crates/loams-collection/src/target.rs:1322-1353 | a commit moves the sum of `applied` by its records and its skipped offsets |
| Offsets.RecordMoves | crates/loams-collection/src/target.rs:1330-1340 | a batch with a record changes `applied` |
| Splits.HitsNotYetDeleted | crates/loams-collection/src/target.rs:1084-1103 | deleting live rows hits docs that were not deleted before |
| Splits.DeletesLand | crates/loams-collection/src/target.rs:1084-1125 | deleting live rows leaves well-formed splits whose live docs are exactly the others, counted right |
| Splits.NewSplitOk | crates/loams-collection/src/target.rs:1254-1307 | the split of the new rows is well formed and its docs are exactly those rows, in order, all live |
| Splits.SplitsAcceptable | crates/loams-collection/src/manifest.rs:464-512 | the row locator accepts every well-formed list of splits |
| Splits.LocateDeleted | crates/loams-collection/src/target.rs:1085-1095 | groups the deleted rows' docs by split; fails if and only if a row is in no split |
| Splits.MarkSplits | crates/loams-collection/src/target.rs:1096-1117 | marks the bitmaps, counts the deleted docs and finds the emptied splits; fails only for a split over `u32::MAX` docs |
| Splits.DeleteRows | crates/loams-collection/src/target.rs:1084-1125 | step 8 yields the parent's splits without the deleted rows, or fails if and only if a row is in no split or a split is too large |
| Splits.LargestSplitKeepsDocs | crates/loams-collection/src/target.rs:1096-1117 | a split of exactly 2^32 docs that the locator accepts, and from which no set of some but not all docs can be deleted |
| Splits.LargestSplitGoesWhole | crates/loams-collection/src/target.rs:1096-1106 | all of its docs together can |
| Splits.OneLiveDoc | crates/loams-collection/src/verify.rs:311-316 | every live row is exactly one live split doc |
| RowSets.ReplacedExact | crates/loams-collection/src/target.rs:1008-1082 | replacing retired rows by new ones keeps exactly one row a key, under the updated key map |
| RowSets.ReplacedCount | crates/loams-collection/src/target.rs:1163-1174 | as many rows go as keys retire, as many come as keys are written |
| Commits.LinkKeepsWhole | crates/loams-collection/src/target.rs:1008-1196 | a link-apply commit keeps live rows and live split docs in bijection, every live doc with its row's key, one row a key, and `live_doc_count` equal to the sum of live docs |
| Commits.LinkKeyRows | crates/loams-collection/src/target.rs:1127-1145 | the commit's PK delta takes the parent's key map to its own |
| Commits.LinkDeltaExact | crates/loams-collection/src/target.rs:1127-1145 | the delta names exactly the keys whose row the commit changed |
| Commits.LinkDocs | crates/loams-collection/src/target.rs:832-1196 | the new manifest holds the documents that committing the batch leaves |
| Commits.ResolveNeverFails | crates/loams-collection/src/target.rs:883-931 | through the exact index of a whole parent, every key of every batch resolves |
| Commits.CommitNeverFails | crates/loams-collection/src/target.rs:1084-1174 | every row the batch deletes is located in a split that can take a bitmap, and the live count never goes below zero |
| Commits.InsertsKeyed | crates/loams-collection/src/target.rs:938-948 | every document is inserted under its own key |
| Commits.IndexKeepsAll | crates/loams-collection/src/index_build.rs:912-924 | an index-build manifest keeps every row, document, split, offset and count of its base, has exactly the index entries it did not replace and its own, and replays as nothing |
| CommitSteps.WriteSplit | crates/loams-collection/src/target.rs:1254-1307 | sorts the new docs by row id and stores their rows as runs, each doc with its key |
| CommitSteps.WriteDelta | crates/loams-collection/src/target.rs:1127-1145 | the delta names every written key's new row and every key deleted without replacement |
| CommitSteps.NextManifest | crates/loams-collection/src/target.rs:1056-1196 | steps 7 to 10 build the specified manifest, or fail if and only if a delete cannot land or the live count would go below zero |
| History.LinkFollows | crates/loams-collection/src/target.rs:956-1196 | a link-apply commit resolved against an exact index follows its parent in every respect a chain needs |
| History.IndexFollows | crates/loams-collection/src/index_build.rs:912-924 | so does an index build, with nothing applied |
| History.AppliedMonotone | crates/loams-collection/src/target.rs:1163-1166 | `applied` never goes back along a chain |
| History.AppliedDecides | crates/loams-collection/src/target.rs:701-764 | along a chain the PK map is determined by `applied` |
| History.ConsumedOnce | crates/loams-collection/src/target.rs:1322-1353 | a chain consumes every partition in offset order and no record twice |
| History.DocsAreStream | crates/loams-collection/src/verify.rs:48-89 | the documents of the newest manifest are what the consumed stream folds to |
| History.ChainConserves | crates/loams-collection/src/target.rs:1163-1196 | the sum of `applied` is the records consumed plus the skipped total; dead letters are no more than records |
| History.LettersAreStream | crates/loams-collection/src/target.rs:1154-1196 | `dead_letters_total` is the number of dead letters of the one-pass model of the consumed stream, however commits cut it |
| PkDeltas.WalkBack | crates/loams-collection/src/target.rs:701-746 | the walk finds the manifests newer than the index, or that one is gone, unmatched or broken |
| PkDeltas.ReplayedDeltas | crates/loams-collection/src/target.rs:701-764 | merges the deltas of the link-apply manifests oldest first |
| PkDeltas.WalkFinds | crates/loams-collection/src/target.rs:701-764 | an index right for an ancestor is always matched, and the deltas found take its key map to the newer manifest's |
| PkDeltas.ReplayWhen | crates/loams-collection/src/target.rs:701-764 | the deltas are found if and only if every manifest and delta between the two versions can be read |
| PkDeltas.ReplayIsRebuild | crates/loams-collection/src/target.rs:701-798 | replaying deltas yields exactly the map a rebuild from the parent's rows yields, and is given up only when something on the way cannot be read |
| PkIndexes.ListsApply | crates/loams-collection/src/target.rs:677-683 | writing a delta's entries applies it |
| PkIndexes.PlanCompletes | crates/loams-collection/src/target.rs:781-798 | the rebuild's entries turn any contents into the live rows and the target watermark |
| PkIndexes.PkIndex.Rebuild | crates/loams-collection/src/target.rs:766-822 | however a chunked rebuild is interrupted, the index holds what it held, or all live rows under the target, or, if one write is not enough, the rebuilding marker; it fails only if a write does |
| ProtocolSafety.HandleReads | crates/loams-collection/src/target.rs:597-649 | a handle that remembers the live manifest's offsets reads the live key map, even after a cancelled PK write |
| ProtocolSafety.CatchKeeps | crates/loams-collection/src/target.rs:676-690 | repairing from deltas keeps the protocol's invariant |
| ProtocolSafety.StartRebuildKeeps | crates/loams-collection/src/target.rs:799-806 | so does beginning a rebuild, in one write or behind the marker |
| ProtocolSafety.RebuildChunkKeeps | crates/loams-collection/src/target.rs:807-815 | so does every chunk |
| ProtocolSafety.PrepareLinkKeeps | crates/loams-collection/src/target.rs:956-1199 | so does preparing a manifest, on a live or a stale parent |
| ProtocolSafety.CasKeeps | crates/loams-collection/src/target.rs:1376-1451 | so does the CAS, acknowledged or not, or landing after its worker gave up |
| ProtocolSafety.SendKeeps | crates/loams-common/src/meta/error.rs:162-182 | so does a copy of the CAS that stays on its way to the metastore |
| ProtocolSafety.RecogniseKeeps | crates/loams-collection/src/target.rs:1435-1441 | so does recognising a landed CAS by its own path |
| ProtocolSafety.WritePkKeeps | crates/loams-collection/src/target.rs:1223-1248 | so does the PK write after the CAS, whether it is acknowledged, lost or cancelled |
| ProtocolSafety.RunKeeps | crates/loams-collection/src/target.rs:597-1251 | the invariant holds after every run |
| ProtocolTheorems.PkIndexCrashSafe | crates/loams-collection/src/pkindex.rs:30-46 | in every reachable state, an index whose watermark has a chain manifest's offsets maps exactly that manifest's live keys to their rows |
| ProtocolTheorems.IndexNotRolledBack | crates/loams-collection/src/target.rs:597-602 | no step takes the watermark back to an older version, except past the rebuilding marker |
| ProtocolTheorems.RepairAlwaysMatches | crates/loams-collection/src/target.rs:651-699 | repair never meets an unmatched or broken history, and replays what a rebuild would write |
| ProtocolTheorems.LinearHistory | crates/loams-collection/src/target.rs:1378-1451 | the commits are versions 1 to n, each made from the one before, the last one live |
| ProtocolTheorems.CommitsOnLive | crates/loams-collection/src/target.rs:1403-1451 | a step adds no commit or one, whose parent was live at the CAS |
| ProtocolTheorems.CasLandsOnce | crates/loams-collection/src/target.rs:1432-1441 | a CAS lands at most once, however often it is sent and however late a copy arrives |
| ProtocolTheorems.ExactlyOnce | crates/loams-collection/src/target.rs:1419-1441 | no record is consumed twice, even if a landed CAS is lost or reported as a conflict |
| ProtocolTheorems.IndexBuildKeepsData | crates/loams-collection/src/index_build.rs:746-812 | a committed index build, rebased or not, loses none of its parent's rows, splits, offsets or counts |
| ProtocolTheorems.OffsetsAddUp | crates/loams-collection/src/target.rs:1163-1196 | in every reachable state offsets never went back and add up, and the letters counted are those of the one-pass model of the stream consumed |
| ProtocolTheorems.CollectionVerifies | crates/loams-collection/src/verify.rs:174-345 | in every reachable state all six agreement rules hold against the fold of the consumed stream, the keys that split docs store included |
| ProtocolTheorems.LiveCommitNeverFails | crates/loams-collection/src/target.rs:883-1174 | on the live manifest with a reusable handle, every key of every batch resolves, every deleted row is located and the live count never goes below zero |
| Recovery.Recover | crates/loams-collection/src/target.rs:597-699 | from every reachable state any worker alone can bring the PK index to the live manifest, whichever older manifests it finds |
| Recovery.CanAlwaysCommit | crates/loams-collection/src/target.rs:956-1251 | and can then commit any batch that fits, leaving the PK index exact for the new manifest |
| CommitTarget.RepairIndex | crates/loams-collection/src/target.rs:651-699 | reports a stale parent if and only if the watermark is not the marker, has other offsets and a higher version; else repairs the index to the parent unless a write fails; whatever write fails, the index stays right for some version or marked, and is never marked while the deltas can be read |
| CommitTarget.WriteRows | crates/loams-collection/src/target.rs:1021-1060 | one new row a document, with ids never given before |
| CommitTarget.Metastore.Apply | crates/loams-collection/src/target.rs:1419-1431 | the metastore moves the pointer if and only if the expected version is live, else answers with the current pointer |
| CommitTarget.Metastore.Send | crates/loams-collection/src/target.rs:1419-1441 | however answers are lost and the command is sent again, the history is as it was or has this commit, perhaps with another worker's on top; it has exactly this one if the CAS is known to have landed, and on a conflict this one is not live; with nothing lost or rejected it lands if and only if the expected version is live |
| CommitTarget.Metastore.Cas | crates/loams-collection/src/target.rs:1403-1451 | the same when another worker may commit first, whose commit is then all the history gains |
| CommitTarget.CollectionTarget.PkHandle | crates/loams-collection/src/target.rs:597-649 | the handle is reused, repaired, or kept with a request to reload, which only an index ahead of an old parent causes; on the live parent it is ready unless a write fails, and then maps exactly the parent's keys |
| CommitTarget.CollectionTarget.Prepare | crates/loams-collection/src/target.rs:992-1196 | on the live parent the prepared manifest follows it, and preparing fails only when no row ids are left |
| CommitTarget.CollectionTarget.WritePk | crates/loams-collection/src/target.rs:1220-1248 | the PK write brings the index to the new manifest, or fails and drops the handle |
| CommitTarget.CollectionTarget.Land | crates/loams-collection/src/target.rs:1196-1251 | storing the manifest, the CAS and the PK write, with the same statement about the history; with nothing going wrong the commit lands if and only if its parent is live |
| CommitTarget.CollectionTarget.CommitBatch | crates/loams-collection/src/target.rs:956-1251 | however it ends, the target is valid and the history is as it was, or has only another worker's commit that came first, or has exactly this commit, which follows the manifest that was live, and perhaps another worker's on top; given up before the CAS leaves it as it was, success means exactly this commit, and after a conflict this commit is not live; when nothing fails and no one is faster, a batch that fits the live manifest is committed and indexed |
| Retained.KeepReferenced | crates/loams-collection/src/gc.rs:280-294 | adds exactly what the manifest references |
| Retained.LinkRefs | crates/loams-collection/src/target.rs:1008-1196 | a commit references every object it wrote (a split if it inserts, a bitmap for each split that loses some docs, a delta and new Lance files if rows change, letters if there are any) and otherwise nothing its parent did not |
| Retained.RetainedChain | crates/loams-collection/src/chain.rs:98-140 | the loop yields the live manifest and its stored ancestors, each near enough or superseded recently enough, up to the first that is not or is not there; or fails on a broken chain |
| Retained.RetainedByDistance | crates/loams-collection/src/chain.rs:98-140 | while manifests are there, the ancestor at distance d is in the result if and only if for every e up to d, e is at most `keep_manifests` or the manifest at distance e - 1 was created less than the retention before the clock |
| Retained.RetainedByAge | crates/loams-collection/src/chain.rs:98-140 | with creation times in order, a manifest is in the result if and only if it is among the `keep_manifests` + 1 newest or was live at some time in the last retention |
| Retained.RetainsByDistance | crates/loams-collection/src/chain.rs:98-105 | the retention the commit protocol is held to is the same rule |
| Retained.RetentionShrinks | crates/loams-collection/src/chain.rs:98-105 | what is not retained is not retained at a later clock or under a later live manifest, whatever the manifests' times |
| Retained.WalkIsPrefix | crates/loams-collection/src/chain.rs:106-140 | along a chain the walk yields a prefix and stops exactly at the oldest manifest it can reach |
| Retained.CollectionObjects | crates/loams-collection/src/gc.rs:133-222 | keeps a path if and only if it is a manifest of the retained chain, or is referenced by one or by a listed manifest that is still there |
| Retained.KeepCovers | crates/loams-collection/src/gc.rs:133-222 | that set covers every manifest the walk reaches and everything a listed manifest references |
| RetentionSafety.CommitKeeps | crates/loams-collection/src/target.rs:1396-1419 | a commit within its freshness deadline keeps every manifest whole against every GC run under way |
| RetentionSafety.KeepSpares | crates/loams-collection/src/gc.rs:133-222 | what a run keeps, from a pointer, a listing and manifests read at different times, spares all that present manifests reference |
| RetentionSafety.DeleteKeeps | crates/loams-log/src/gc.rs:525-564 | deleting any unkept object at least `grace` old keeps retained manifests present and present manifests whole |
| RetentionSafety.RunKeeps | crates/loams-collection/src/gc.rs:66-222 | the invariant of commits, GC and trims holds after every run |
| RetentionSafety.PresentManifestsWhole | crates/loams-collection/src/gc.rs:18-24 | in every reachable state every committed manifest still present has all it references |
| RetentionSafety.RetainedNeverDeleted | crates/loams-collection/src/gc.rs:66-222 | retained manifests, the live one among them, and their objects are never deleted |
| RetentionSafety.NotRetainedAgain | crates/loams-collection/src/chain.rs:98-105 | over any run, a manifest that is not retained is never retained again |
| RetentionSafety.StopBounds | crates/loams-collection/src/trim.rs:151-194 | where a walk stops that reads one manifest at a time, from the store or a cache, amid commits and deletes, no older manifest is retained any more |
| RetentionSafety.TrimSafe | crates/loams-collection/src/trim.rs:147-212 | no log start passes the `applied` of a manifest retained now or later |
| RetentionSafety.Trim | crates/loams-collection/src/trim.rs:147-212 | trims exactly the partitions whose log start lies below the oldest retained manifest's offset, to that offset |
| RetentionSafety.TrimWalk | crates/loams-collection/src/trim.rs:177-194 | in every reachable state the walk ends at the oldest retained manifest |
| RetentionProgress.GcFrees | crates/loams-collection/src/gc.rs:66-222 | from every reachable state, for every object that no present manifest references and that is no retained manifest, a GC run with exactly that keep set deletes it, once the clock can outlive it |
| RetentionProgress.GarbageIsCollected | crates/loams-log/src/gc.rs:526-564 | such an object can be collected if and only if its time plus the grace period is below `u64::MAX` |
| RetentionProgress.TwoRunsFree | crates/loams-collection/src/gc.rs:122-127 | a manifest goes in one run and what only it referenced in the next |
| RetentionProgress.TrimCuts | crates/loams-collection/src/trim.rs:147-212 | from every reachable state a trim cuts a partition up to the oldest retained manifest's offset |
| RetentionSafety.LinkIsCovered | crates/loams-collection/src/target.rs:1008-1196 | a link-apply commit whose own objects were written since it started is one the retention machine covers, whatever files it keeps of its parent |
| RetentionSafety.IndexIsCovered | crates/loams-collection/src/index_build.rs:912-924 | so is an index build |
| Lifecycle.PutEnabled | crates/loams-collection/src/target.rs:1163-1199 | every manifest a worker prepares, on a live or a stale parent, is one the retention machine covers |
| Lifecycle.StepKeeps | crates/loams-collection/src/target.rs:956-1451 | whatever a worker does, the retention machine can follow: workers, GC and trims share one history of commits and the same manifests |
| Lifecycle.RunKeeps | crates/loams-collection/src/gc.rs:18-24 | so it is over every run of all of them together |
| Lifecycle.CommittedObjectsPresent | crates/loams-collection/src/gc.rs:4-24 | while any workers commit and any GC runs delete, the live and every retained manifest is present with every object it references |
| Lifecycle.LiveParentReadable | crates/loams-collection/src/target.rs:966-1005 | a worker that builds on the live manifest finds everything it references |
| Lifecycle.UnappliedNotTrimmed | crates/loams-collection/src/trim.rs:147-212 | no trim cuts a record that the live manifest has not applied |
| Lifecycle.VerifiesAndReads | crates/loams-collection/src/verify.rs:174-345 | all the while the six agreement rules hold against the consumed stream |
| RangeCaches.SealVerifies | crates/loams-cache/src/range_cache.rs:389-404 | a sealed block verifies to its payload |
| RangeCaches.Stitch | crates/loams-cache/src/range_cache.rs:255-265 | the parts of consecutive true blocks are exactly the requested bytes |
| RangeCaches.MissingRuns | crates/loams-cache/src/range_cache.rs:231-243 | the runs of missing blocks are maximal and cover exactly them |
| RangeCaches.RangeCache.CachedBlock | crates/loams-cache/src/range_cache.rs:313-337 | returns a block if and only if it is cached, intact and of the expected length and the lookup does not fail; evicts a damaged one and nothing else, and keeps the cache true |
| RangeCaches.RangeCache.FetchRun | crates/loams-cache/src/range_cache.rs:342-377 | one GET, which succeeds if and only if the store answers and the claimed size is the object's; then every block of the run is true, returned and cached |
| RangeCaches.RangeCache.ReadSized | crates/loams-cache/src/range_cache.rs:207-266 | returns exactly the slice, for the true size or for any claimed size while intact entries are true blocks; fetches exactly the blocks that cannot be used, with one GET per maximal run; fails only for a bad range, a wrong size or a store failure; afterwards every block read is cached, and reading it again makes no GET |
| RangeCaches.RangeCache.Evict | crates/loams-cache/src/range_cache.rs:313-337 | dropping an entry keeps the cache true |
| RangeCaches.RangeCache.Damage | crates/loams-cache/src/range_cache.rs:389-404 | so does turning an entry into bytes that fail the checksum |
| RangeCaches.RangeCache.Size | crates/loams-cache/src/range_cache.rs:152-160 | the object's size, asked for once and remembered |
| RangeCaches.RangeCache.Read | crates/loams-cache/src/range_cache.rs:163-168 | succeeds if and only if the object is there, the range is in it and the store answers, with exactly the slice; asks for the size at most once |
| RangeCaches.RangeCache.ReadWithSize | crates/loams-cache/src/range_cache.rs:182-202 | a claim against a remembered size is refused; a true one is served without asking for the size; a size is remembered if and only if a GET confirmed it |
| Decimals.ParsePrint | crates/loams-common/src/id.rs:11-21 | a string parses to a number if and only if it is how that `u64` is printed |
| Tokens.DisplayToken | crates/loams-collection/src/token.rs:52-66 | the loop prints the token's text |
| Tokens.DisplaySpells | crates/loams-collection/src/token.rs:52-66 | how the text form spells the empty token, a pair and two pairs |
| Tokens.ParseDisplay | crates/loams-collection/src/token.rs:52-107 | a string parses to a token if and only if it is that token's text |
| Tokens.Normalize | crates/loams-collection/src/token.rs:18-32 | the loop computes the normalized token |
| Tokens.NormalizedIsNormal | crates/loams-collection/src/token.rs:18-32 | normalizing keeps every pair's largest offset and leaves each pair once, in order |
| Tokens.MergeOffset | crates/loams-collection/src/token.rs:34-50 | each pair's offset in a merged token is the larger of the two |
| Tokens.MergeCommutes | crates/loams-collection/src/token.rs:34-39 | merging commutes, for all tokens |
| Tokens.MergeAssociates | crates/loams-collection/src/token.rs:34-39 | merging associates, for all tokens |
| Tokens.MergeIdempotent | crates/loams-collection/src/token.rs:34-39 | merging a token with itself changes nothing if and only if it is normalized |
| Writers.Group | crates/loams-collection/src/writer.rs:134-151 | every partition gets its accepted ops in input order, and refused ops their rejection |
| Writers.Scatter | crates/loams-collection/src/writer.rs:164-177 | every op of an acknowledged batch gets its partition's next offset |
| Writers.Write | crates/loams-collection/src/writer.rs:107-184 | every accepted op is in the log once, in one batch a partition, at the offset its result names, and nothing else is sent; a refused op is rejected for its reason; the token is the offset after each batch; fails if and only if the log fails or leaves a batch unacknowledged; ops are checked again under a newer schema when it might help |
| Writers.OffsetsFollowInput | crates/loams-collection/src/writer.rs:164-172 | within a partition offsets follow the input order without gaps or repeats |
| Writers.TokenPastOffsets | crates/loams-collection/src/writer.rs:173-177 | the token's offset exceeds every written offset |
| Writers.TokenIsNext | crates/loams-collection/src/writer.rs:173-177 | and is the one after the last offset written in its partition |
| ConsistentReads.AppliedIffConsumed | crates/loams-collection/src/target.rs:1163-1166 | along a chain, a record of the log was consumed if and only if its offset is below the newest `applied` |
| ConsistentReads.ReachedMerge | crates/loams-collection/src/token.rs:34-39 | waiting for a merged token is waiting for both |
| ConsistentReads.ReachedIffApplied | crates/loams-collection/src/writer.rs:164-177 | a write's token is reached if and only if every offset it wrote is applied |
| ConsistentReads.ReachedLater | crates/loams-collection/src/target.rs:1163-1166 | a token that was reached stays reached as `applied` grows |
| ConsistentReads.ReadSeesWrite | crates/loams-collection/src/token.rs:11-12 | in every reachable state whose live manifest has reached a write's token, every op it wrote was consumed, and the documents are the fold of what was |
| ConsistentReads.ReadSeesLastWrite | crates/loams-collection/src/token.rs:11-12 | there a reader finds an upsert it wrote, with that record as its writer, and no document of a key it deleted, unless a later op of the key was applied |
| CloudEvents.Validate | crates/loams-cloudevents/src/lib.rs:284-353 | the loops accept exactly the valid attribute lists, and name a fault of the others |
| CloudEvents.NameMeans | crates/loams-cloudevents/src/lib.rs:276-282 | a name is one or more lower-case ASCII letters and digits, and not `data` |
| CloudEvents.IntegerMeans | crates/loams-cloudevents/src/lib.rs:306-318 | an integer value is the decimal spelling of some 32-bit signed integer |
| CloudEvents.LeastEvent | crates/loams-cloudevents/src/lib.rs:284-353 | the four required attributes make a valid event if and only if none is empty |
| CloudEvents.RequiredPresent | crates/loams-cloudevents/src/lib.rs:284-353 | every valid event has the four required attributes, no empty context attribute, and version 1.0 |
| CloudEvents.StoreEvent | crates/loams-cloudevents/src/record.rs:36-61 | the loop builds the stored record |
| CloudEvents.RecordLayout | crates/loams-cloudevents/src/record.rs:32-61 | where every attribute, the types, the data, the key and the time of an event stand in its record |
| CloudEvents.ReadBinary | crates/loams-cloudevents/src/record.rs:96-130 | the loops read attributes, types and data back |
| CloudEvents.HeaderMeans | crates/loams-cloudevents/src/record.rs:96-116 | a header carries an attribute if and only if it is a content type, in any case, or has the prefix |
| CloudEvents.BinaryRoundTrip | crates/loams-cloudevents/src/record.rs:36-130 | every valid event is read back identical from its record: order, values, types and presence of data |
| CloudEvents.RecordRoundTrip | crates/loams-cloudevents/src/record.rs:68-86 | so it is through `from_record` |
| PrimaryKeys.CanonicalRoundTrip | crates/loams-collection/src/pk.rs:26-92 | bytes parse to a key if and only if they are the canonical bytes of that valid key |
| PrimaryKeys.CanonicalSpells | crates/loams-collection/src/pk.rs:26-49 | the tags, and numbers in eight bytes, the most significant first |
| PrimaryKeys.CanonicalOrder | crates/loams-collection/src/pk.rs:13-18 | keys compare like their canonical bytes |

## Left out

- Lance, Tantivy, SlateDB, foyer, moka, the object store and the metastore: only the contracts above.
- Lease fencing of the CAS: the machine lets any worker CAS, which allows more runs.
- Equality of `check_document` and `model_accepts`: one validity predicate stands for both.
- The checks and messages of `verify_collection` (`verify.rs:185-345`): its six rules are stated as `ProtocolTheorems.Agrees`.
- Compaction and other maintenance that rewrites splits or rows; a maintenance commit here keeps the data, as an index build does.
- The bookkeeping of vector and scalar index entries, `plan_index_work`, training parameters and the limit on rebases.
- Hot artifacts, retired prefixes, dropped collections and GC of the PK index's own files; Lance files are a set of paths.
- GC failures that keep a whole collection: a run may keep any superset of what the model asks.
- The order in which partitions are written (any order here), and concurrency of reads.
- Byte formats of manifests, deltas and dead letters (postcard, protobuf, checksums); a delta is its map of keys.
- `merge_deep`, `delete_path` and `set_or_remove` change nested maps through references; here each level returns its new value.
- Non-finite floats in vectors: decoding refuses them, and vectors are sequences of reals.
- Counters (`lettersTotal`, `skippedTotal`, cache statistics) do not wrap.
- Structured-mode events and synthesized envelopes of `from_record`: functions given to `CloudEvents.FromRecord`.
- UTF-8 decoding and RFC 3339 parsing: predicates given to the model.
- `partition_of`, the dedup key and other hashes: uninterpreted.
- CloudEvents.Validate: does not say which of several faults it names.
- ProtocolTheorems.IndexNotRolledBack: says nothing of a step from or to the rebuilding marker, which carries no version.
- CommitTarget.CollectionTarget.CommitBatch: other workers' commits around its CAS do not touch the PK index there, because `Protocol` covers every interleaving with them.
- HTTP, gateway, connector and worker-scheduling code.
