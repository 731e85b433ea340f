# Verified models of the scatter-dex client core

Dafny models of the algorithmic parts of the scatter-dex mobile and web clients, with proofs of what
those parts promise: the sparse Merkle tree whose root must equal the pool's, the checkpointed event
scanner whose order is the Merkle leaf order, and a set of smaller stateful pieces around them.
`dafny verify dfyconfig.toml` checks everything.

| module | what it models |
|---|---|
| `MerkleSpec`, `MerkleTree` | the naive padded tree; the sparse builder and path extractor |
| `IncrementalTree` | the append-only tree of the pool and the browser; same root as the sparse builder |
| `ChainHistory`, `RangeScan`, `CommitmentScan` | events per block; chunked, bisecting range reads; checkpoint, cache and shared scans |
| `CommitmentProof` | scan, check the note, build the tree, extract the path: the whole way to a proof |
| `Shuffle`, `MnemonicVerify` | the in-place shuffle; recovery-phrase challenges and the show / verify / done dialog |
| `RelayerBook` | the one-pass grouped order index and the pair menu |
| `RecentActivity` | per-source truncation before one stable sort |
| `RateLimit` | the fixed-window limiter with periodic cleanup |
| `Backup` | the additive restore and the export |
| `OpenApi` | the memoised example generator |
| `SharedObFetch`, `MarketQuote` | the two stale-response guards |
| `FeeMath` | fee, gas and slippage rounding |

Objects and module-level state that the source updates are classes here. Each method is tied to a
function of its old state (`Step`, `Next`, `ScanResult`, `NotesAfter`, ...), and the results about
whole runs are lemmas about those functions.

## What the proofs found

- A head that a lagging node reports inside `[lastBlock, lastBlock + 5)` passes the guard whose
  comment claims to prevent repeated blocks (mobile/src/lib/commitmentScan.ts:164-170), and the tail
  scan then repeats blocks. `ScanFromCheckpoint` gives the exact result for every head,
  `RepeatedBlocksMustBeEmpty` says exactly when it is still right, and `HeadJustBehindRepeatsALeaf`
  is a concrete miss. With a head that never recedes it cannot happen (`EveryScanIsCanonical`).
  With heads that do, it spoils that one result only, never the stored checkpoint
  (`CheckpointsStaySettled`, `AnyHeadScansAreRightIff`), and a note is then proved against a root that is
  not the pool's, unless the hash collides (`RootIsThePoolsIff`).
- The sparse builder equals the naive one except for no leaves at depth 0, where it reads past the
  end of an empty layer and returns no root (mobile/src/lib/merkleTree.ts:88-132). The model's root
  is `None` exactly there.
- In an interval as long as its window the rate limiter lets up to `2 * limit - 1` requests through and
  no more, for every limit from one and every window of at least two milliseconds; with a window of
  one millisecond it is the limit itself (`SlidingWindowBound`, `SlidingWindowBoundIsMet`). A limit
  below one still lets one request through per window (`LimitBelowOneLetsOneThrough`).
- A claim's deduplication key joins its parts with `#` (mobile/src/services/BackupService.ts:161-164). It
  tells claims apart as long as amounts hold no `#` (`SameKeyIff`), not otherwise (`SeparatorsCanCollide`).
- Truncating the activity sources (mobile/src/hooks/useRecentActivity.ts:133) keeps every block number,
  but not always the rows. `CutShowsNewestRows` gives the exact condition: for every source whose last
  dropped and first kept log share a block, at least 20 rows are in newer blocks, or in that block and
  from an earlier source. `SharedBlockShowsOtherRows` is a family of inputs that miss it.

## Modelling choices

- The hash is a parameter `H`; the zero table is taken by its contract, `zeros[0] == 0` and
  `zeros[d + 1] == H(zeros[d], zeros[d])`, with the source's 21 entries. Field elements are values,
  not their decimal or hexadecimal text. Binding is stated without assuming `H` injective: either
  the opening is the tree's own or two inputs of `H` collide.
- One scan sees one chain and one RPC behaviour, a function of the queried range; `Distinct` shows
  that no range is asked twice. Which of two concurrent failures surfaces first is left open.
- `History` drops logs that no longer parse, and empty ones, as the scanner does; it is the pool's own list, and
  `PoolRoot` the pool's own root, only where none was dropped (`NothingSkippedIff`).
- A run of scans may lose the checkpoint, fail to save it, or fail in either part, at every step;
  clearing a pool's data between scans is such a loss.
- `Math.random` is a parameter: any choice of swap targets, position `k` from `0..k`.
- Clocks, storage outcomes, new claim ids, address normalisation and locale comparison are parameters.
- Restored claims carry a string or no order id; any other type of a checked field makes a row `Malformed`.
- A document is acyclic when a ranking of its references exists; `RankedIffNotCircular` shows that this is
  so exactly when they do not run in a circle. Only references the generator would meet count.
- The activity logs of one source are distinct and in block order, as event queries return them.
- Effects, timers and responses are events that may interleave in any order a browser can produce.
- The order-book base URL is fixed when the app is built (frontend/app/lib/config.ts:1-5, 86-88), so it is
  there in all runs of the effect or in none; `ConfiguredRunsStayInStep` and `UnconfiguredStaysIdle` cover
  these two. `StepStaysInStep` and `LostUrlWouldLoadForever` also say what a URL that goes away would do.

## Model

| member | source | states |
|---|---|---|
| MerkleSpec.WidthIsCeiling | mobile/src/lib/merkleTree.ts:111-126 | the stored length of level d is n / 2^d rounded up |
| MerkleSpec.ZeroRegion | mobile/src/lib/merkleTree.ts:111-116 | every node right of the stored prefix is that level's all-zero hash |
| MerkleSpec.ZeroTableEntry | mobile/src/lib/merkleTree.ts:25-56 | each table entry is the hash of an all-zero subtree of its height |
| MerkleSpec.HonestPathFolds | mobile/src/lib/merkleTree.ts:167-182 | folding a node up its naive siblings by its index bits gives the root, for any position in the tree |
| MerkleSpec.LeftIsFirst | mobile/src/lib/merkleTree.ts:121-123 | the left node is hashed first, in the tree and in the folding |
| MerkleSpec.BitsSpellIndex | mobile/src/lib/merkleTree.ts:171-180 | the path bits are binary digits and spell the leaf index |
| MerkleSpec.FoldBinds | mobile/src/lib/merkleTree.ts:140-183 | any value and siblings that fold to the root are the tree's own, or exhibit a hash collision |
| MerkleSpec.RootsBind | mobile/src/lib/merkleTree.ts:75-133 | equal roots of two leaf lists mean equal leaves at every position, padding included, or a hash collision |
| MerkleSpec.InjectiveHasNoCollision | mobile/src/lib/merkleTree.ts:121-123 | a collision exists exactly when the hash is not injective on pairs |
| MerkleTree.CollectPairs | mobile/src/lib/merkleTree.ts:111-116 | neighbours are paired in order, an odd last node with the level's zero hash |
| MerkleTree.HashLevel | mobile/src/lib/merkleTree.ts:117-125 | batching does not matter: one hash per pair, each in its own place |
| MerkleTree.PrefixStep | mobile/src/lib/merkleTree.ts:90-128 | hashing the stored prefix of a level yields exactly the next naive level's prefix |
| MerkleTree.FillZeroLayers | mobile/src/lib/merkleTree.ts:91-101 | with no leaves every upper layer is the first node of the naive all-zero level |
| MerkleTree.BuildPoseidonMerkleTree | mobile/src/lib/merkleTree.ts:75-133 | both errors in their order; otherwise every layer is the naive level's prefix, the root is the naive root (none only for no leaves at depth 0), and the hashes are one per stored node above the leaves, at most n-1+depth |
| MerkleTree.GetMerkleProofFromTree | mobile/src/lib/merkleTree.ts:140-183 | for both call shapes: out-of-range and zero-region indices are refused; otherwise on each level the neighbour of the node above the leaf is read from the shape's own layers, or from its own zero hashes, or the module's table, and the index's binary digits are given |
| MerkleTree.ExtractedPathFoldsToRoot | mobile/src/lib/merkleTree.ts:145-182 | an extracted path folds its leaf to the naive root, table siblings included |
| MerkleTree.FullLayersCover | mobile/src/lib/merkleTree.ts:145-151 | layers padded to full width need no zero table for that |
| MerkleTree.BuiltTreeMembership | mobile/src/lib/merkleTree.ts:135-183 | a value with siblings opens position i of a built tree exactly if it is the leaf there (the zero leaf in the padding) with the extracted siblings, unless the hash collides |
| MerkleTree.ProveMembership | mobile/src/services/OrderService.ts:341-345 | build, extract, fold: the leaf at the index verifies against the naive root |
| IncrementalTree.LeftOfInsertUnchanged | contracts/src/zk/IncrementalMerkleTree.sol:57-91 | appending a leaf changes no node left of its ancestors |
| IncrementalTree.InsertLevel | frontend/app/lib/zk/incremental-tree.ts:56-63 | one level of an insertion computes the new parent from the remembered left node or the zero hash |
| IncrementalTree.RememberedAfterInsert | frontend/app/lib/zk/incremental-tree.ts:57-60 | after an insertion the remembered nodes are again the left siblings the next one needs |
| IncrementalTree.Tree.constructor | frontend/app/lib/zk/incremental-tree.ts:39-44 | the empty tree's root is the naive root of no leaves |
| IncrementalTree.Tree.Insert | frontend/app/lib/zk/incremental-tree.ts:50-67 | a full tree refuses; otherwise the leaf is appended, its index returned, and the root is the naive root of the grown leaves |
| IncrementalTree.IncrementalAndSparseAgree | frontend/app/lib/zk/incremental-tree.ts:69-73 | inserting one by one and building sparsely give the same root |
| ChainHistory.FlatQueryIsHistory | mobile/src/lib/commitmentScan.ts:95-105 | parsing one flat range query gives the blocks' leaves in order, unparseable logs skipped |
| ChainHistory.NothingSkippedIff | mobile/src/lib/commitmentScan.ts:100-105 | each leaf stands at its own log's position if and only if no log is skipped |
| ChainHistory.HistorySplit | mobile/src/lib/commitmentScan.ts:113-133 | the history of a range is that of its two parts in order |
| RangeScan.ParseEvents | mobile/src/lib/commitmentScan.ts:100-105 | events become leaves in order, drifted and empty ones skipped |
| RangeScan.FetchChunk | mobile/src/lib/commitmentScan.ts:87-115 | success equals one flat in-order query; any failure ends it at once, a log-limit refusal only for one block; the queries are exactly the bisection of what is refused for its logs, at most 2*blocks-1, none repeated or out of range |
| RangeScan.HalvesAreEven | mobile/src/lib/commitmentScan.ts:108-112 | a refused range is split into halves that make it up and differ by at most one block |
| RangeScan.TileRange | mobile/src/lib/commitmentScan.ts:122-125 | consecutive ranges cover the blocks exactly, all but the last of 5000 blocks |
| RangeScan.ScanNewRange | mobile/src/lib/commitmentScan.ts:117-136 | a batched scan returns the range's history in order or a fatal query's error, within 2*blocks-1 distinct queries; nothing past the batch of a fatal query is asked |
| RangeScan.OnlyDenseBlocksFail | mobile/src/lib/commitmentScan.ts:82-112 | log-limit refusals alone fail a scan only by refusing a single block |
| CommitmentScan.ScanFromCheckpoint | mobile/src/lib/commitmentScan.ts:164-201 | the exact result from a valid checkpoint for every head: snapshot, full history, or history with repeated blocks |
| CommitmentScan.RepeatedBlocksMustBeEmpty | mobile/src/lib/commitmentScan.ts:164-201 | in the window the guard misses, the result is right if and only if the repeated blocks hold no leaves |
| CommitmentScan.ScanIsHistoryIff | mobile/src/lib/commitmentScan.ts:160-201 | for every head, a scan from a valid checkpoint or none is right if and only if the blocks it reads again hold no leaves; behind the checkpoint it stands for the checkpoint's block |
| CommitmentScan.HeadJustBehindRepeatsALeaf | mobile/src/lib/commitmentScan.ts:164-170 | a concrete checkpoint and head for which a leaf is returned twice |
| CommitmentScan.GoodScan | mobile/src/lib/commitmentScan.ts:160-201 | from a checkpoint at least 5 behind the head a scan returns the canonical history and leaves such a checkpoint, whatever parts fail |
| CommitmentScan.ReorgKeepsCheckpoint | mobile/src/lib/commitmentScan.ts:17-19 | rewriting only the last 5 blocks leaves a checkpoint canonical |
| CommitmentScan.CheckpointsStayGood | mobile/src/lib/commitmentScan.ts:172-193 | at every step of a run the stored leaves are the canonical ones of deploy..lastBlock |
| CommitmentScan.EveryScanIsCanonical | mobile/src/lib/commitmentScan.ts:138-201 | over every run with a head that never recedes and 5-block reorgs, each scan returns exactly the canonical leaves of deploy..latest |
| CommitmentScan.CheckpointsOnlySaveTime | mobile/src/lib/commitmentScan.ts:60-66 | such runs return what they would without any stored checkpoint |
| CommitmentScan.CheckpointsStaySettled | mobile/src/lib/commitmentScan.ts:160-193 | over every run whose heads may also recede, every stored checkpoint is canonical and at least 5 below the highest head |
| CommitmentScan.AnyHeadScansAreRightIff | mobile/src/lib/commitmentScan.ts:160-201 | each scan of such a run is right if and only if the blocks it reads again itself hold no leaves |
| CommitmentScan.CheckpointMoves | mobile/src/lib/commitmentScan.ts:172-193 | a scan whose confirmed part worked and whose save landed leaves the canonical leaves of deploy..head-5 stored, if the checkpoint it read was behind that; otherwise storage stays as it was |
| CommitmentScan.WorkingScanCatchesUp | mobile/src/lib/commitmentScan.ts:172-193 | in every run, after such a scan at the highest head the checkpoint stands exactly five blocks below it |
| CommitmentScan.CommitmentScanner.GetCommitmentLeaves | mobile/src/lib/commitmentScan.ts:150-208 | a cached answer is a completed scan's, younger than the lifetime; otherwise the scan in flight is shared, and one is started only if there is none |
| CommitmentScan.CommitmentScanner.ScanPool | mobile/src/lib/commitmentScan.ts:158-201 | result, cache entry and next checkpoint of one scan; a landed save of a working confirmed part leaves the checkpoint five blocks below the head; each part asks for its own blocks and for no range twice, and fails exactly when a query it sent was fatal, with that query's error; without a head nothing is asked; other pools untouched |
| CommitmentScan.CommitmentScanner.RunScan | mobile/src/lib/commitmentScan.ts:158-205 | the same, with what is saved or left and what any failed query means, and nothing a readable checkpoint holds asked for again but the last five blocks; the in-flight entry is gone however the scan ended |
| CommitmentProof.RootIsThePoolsIff | mobile/src/services/CancelService.ts:105-112 | for every head, the root over the scanned list is the pool's if and only if the scan repeats nothing, up to hash collisions |
| CommitmentProof.ProveNote | mobile/src/services/CancelService.ts:87-112 | for every head and checkpoint the note is proved against, or refused for, exactly the list the scan returns; from a valid checkpoint that is the pool's list at the head, at the checkpoint's block for a head behind it, or the named list with repeats; the checkpoint stays valid, and good if it was; a failed scan sent a fatal query or had no head |
| Shuffle.ShuffleInPlace | mobile/src/components/MnemonicVerifyModal.tsx:17-24 | the swaps in place compute the shuffle of the chosen targets, a rearrangement of the input |
| Shuffle.ShufflePermutes | mobile/src/components/MnemonicVerifyModal.tsx:19-22 | every choice of targets yields a permutation |
| Shuffle.ShuffleInjective | mobile/src/components/MnemonicVerifyModal.tsx:17-24 | on distinct elements two choices give the same result only if they are the same |
| Shuffle.ShuffleSurjective | mobile/src/components/MnemonicVerifyModal.tsx:17-24 | every rearrangement is reached by some choice |
| Shuffle.AllChoicesAreTheChoices | mobile/src/components/MnemonicVerifyModal.tsx:19-20 | the counted set is exactly the set of choice vectors |
| Shuffle.ChoiceCount | mobile/src/components/MnemonicVerifyModal.tsx:19-20 | there are n! choice vectors |
| MnemonicVerify.PickOne | mobile/src/components/MnemonicVerifyModal.tsx:28-37 | the answer occurs exactly once among pairwise distinct words of the phrase, with as many wrong choices as there are, up to three, chosen and ordered by the draws |
| MnemonicVerify.PickIndices | mobile/src/components/MnemonicVerifyModal.tsx:27 | up to three distinct positions, ascending |
| MnemonicVerify.PickChallenges | mobile/src/components/MnemonicVerifyModal.tsx:26-38 | sound questions about distinct ascending positions, for any word list |
| MnemonicVerify.AnySoundRoundCanComeUp | mobile/src/components/MnemonicVerifyModal.tsx:26-38 | every list of sound questions at ascending positions is made by some randomness: any positions, any wrong words, any order |
| MnemonicVerify.PicksTrackAnswers | mobile/src/components/MnemonicVerifyModal.tsx:59-72 | after a start the dialog stands at the first answer not yet picked in order, and is done only when none is left |
| MnemonicVerify.DoneOnlyAfterAllAnswers | mobile/src/components/MnemonicVerifyModal.tsx:47-89 | in every possible run ending done, only picks follow the last start, all its answers were picked in order, and the last pick completed them |
| MnemonicVerify.ErrorIffLastPickWrong | mobile/src/components/MnemonicVerifyModal.tsx:59-72 | in every run the error shows exactly while the last thing done was a wrong pick |
| MnemonicVerify.MnemonicVerifyModal.StartVerify | mobile/src/components/MnemonicVerifyModal.tsx:47-52 | starts over with freshly picked sound challenges |
| MnemonicVerify.MnemonicVerifyModal.OnPick | mobile/src/components/MnemonicVerifyModal.tsx:59-72 | moves the dialog by the picked word |
| MnemonicVerify.MnemonicVerifyModal.GoBack | mobile/src/components/MnemonicVerifyModal.tsx:54-57 | returns to the phrase |
| MnemonicVerify.MnemonicVerifyModal.Reset | mobile/src/components/MnemonicVerifyModal.tsx:74-89 | finishing and cancelling forget all progress |
| RelayerBook.PairKeyDetermines | frontend/app/relayer/page.tsx:251 | a key of two dash-free tokens is matched by no other pair of strings |
| RelayerBook.SplitPairKey | frontend/app/relayer/page.tsx:267 | splitting an option's value gives back its two tokens |
| RelayerBook.GroupOrders | frontend/app/relayer/page.tsx:247-260 | every lookup in the one-pass index is the order-preserving filter of all orders by relayer and key |
| RelayerBook.KeyedIsScan | frontend/app/relayer/page.tsx:242-251 | filtering by key equals filtering by the two tokens |
| RelayerBook.ScanLists | frontend/app/relayer/page.tsx:247-260 | the entries are, position by position, the maker and amounts of exactly this relayer's orders for these tokens, in feed order |
| RelayerBook.BookOfPair | frontend/app/relayer/page.tsx:266-270 | the book of option a-b sells what sells a for b and buys what sells b for a |
| RelayerBook.LoadOrderbooks | frontend/app/relayer/page.tsx:262-273 | for each target and option both sides are what a scan of all orders would give |
| RelayerBook.BuildPairOptions | frontend/app/relayer/page.tsx:48-66 | every unordered pair of tradable tokens once, oriented by the comparison, row by row, then each token with itself |
| RelayerBook.TradableAreNotNative | frontend/app/relayer/page.tsx:49-50 | the tokens paired are exactly those that are not native, by lower-case address, in order |
| RelayerBook.LowerTokenFirst | frontend/app/relayer/page.tsx:53-58 | every option of two tokens has the one that compares lower first |
| RelayerBook.MenuRows | frontend/app/relayer/page.tsx:51-64 | pairs of different tokens come first, and each kind row by row |
| RelayerBook.CrossOrdersHaveOneBucket | frontend/app/relayer/page.tsx:266-270 | orders between two different listed tokens show under exactly one option and side |
| RelayerBook.ScatterOrdersHaveOneOption | frontend/app/relayer/page.tsx:61-64 | same-token orders show under exactly one option, on both sides |
| RelayerBook.MatchesAreWeight | frontend/app/relayer/page.tsx:48-66 | the menu's sides that show an order number one for two different listed tokens, two for one listed token, none otherwise |
| RelayerBook.BooksShowAll | frontend/app/relayer/page.tsx:251-273 | over a whole menu each pair's orders appear under one option and side only, complete and in order with their own makers and amounts, every option has its own tokens' book, and the entries in all are the relayer's listed orders, same-token ones twice |
| RelayerBook.ShowOrderbooks | frontend/app/relayer/page.tsx:229-273 | building the menu and loading the books gives every target relayer such books |
| RecentActivity.SortSorts | mobile/src/hooks/useRecentActivity.ts:164 | the sort is a newest-first rearrangement |
| RecentActivity.SortKeepsTies | mobile/src/hooks/useRecentActivity.ts:164 | rows of one block keep their order |
| RecentActivity.CountAfterCut | mobile/src/hooks/useRecentActivity.ts:114-133 | truncation changes no count of rows at or above a block, as far as the feed can show it |
| RecentActivity.CutLosesNoBlock | mobile/src/hooks/useRecentActivity.ts:119-165 | the final block numbers equal those of the untruncated union's newest rows |
| RecentActivity.Position | mobile/src/hooks/useRecentActivity.ts:164 | a row stands after all rows of newer blocks and all earlier rows of its own |
| RecentActivity.FirstFewOfPart | mobile/src/hooks/useRecentActivity.ts:164-165 | leaving rows out before the sort changes the feed if and only if one of the rows it shows is left out |
| RecentActivity.CutShowsNewestRows | mobile/src/hooks/useRecentActivity.ts:119-165 | the feed shows the rows of the untruncated sort if and only if every block split by a cut is hidden behind a full feed |
| RecentActivity.SharedBlockShowsOtherRows | mobile/src/hooks/useRecentActivity.ts:133-165 | a source with too many logs in one block shows its last ones instead of its first |
| RecentActivity.CollectFeed | mobile/src/hooks/useRecentActivity.ts:119-165 | the feed as computed, rejected sources skipped, loses no block, and no row exactly under that condition |
| RateLimit.RateLimiter.Cleanup | frontend/app/lib/rate-limit.ts:19-26 | at most once per interval, removes exactly the ended windows |
| RateLimit.EndedWindowsGo | frontend/app/lib/rate-limit.ts:15-26 | in every run, no window that ended a cleanup interval or more before a request is still stored after it |
| RateLimit.RateLimiter.CheckRateLimit | frontend/app/lib/rate-limit.ts:44-61 | the decision and the new state of one request |
| RateLimit.CleanupIsInvisible | frontend/app/lib/rate-limit.ts:15-26 | over every run each answer is that of a limiter that never deletes |
| RateLimit.WindowBound | frontend/app/lib/rate-limit.ts:44-61 | from the request that opens a window to its end at most the limit passes |
| RateLimit.RemainingAddsUp | frontend/app/lib/rate-limit.ts:52-60 | within a window requests let through plus the reported remainder make up the limit, and the reported reset is the window's end |
| RateLimit.OpenerIsTold | frontend/app/lib/rate-limit.ts:49-53 | the request that opens a window passes and is told the rest of the limit and the window's end |
| RateLimit.SlidingWindowBound | frontend/app/lib/rate-limit.ts:44-61 | any interval as long as the window lets at most 2*limit-1 through (the limit, for a window of one millisecond), whatever other keys do |
| RateLimit.SlidingWindowBoundIsMet | frontend/app/lib/rate-limit.ts:44-61 | for every key and configuration a run that reaches that bound |
| RateLimit.LimitBelowOneLetsOneThrough | frontend/app/lib/rate-limit.ts:49-53 | with a limit below one each window still lets exactly one request through |
| Backup.FirstNewExactly | mobile/src/services/BackupService.ts:133-142 | kept are exactly the first occurrences of new keys, in file order |
| Backup.FirstNewNotes | mobile/src/services/BackupService.ts:133-142 | notes to save have new, pairwise distinct ids |
| Backup.InputKeepsKey | mobile/src/services/BackupService.ts:162-203 | the row handed to storage has the key it was deduplicated by |
| Backup.SameKeyIff | mobile/src/services/BackupService.ts:161-164 | two claims share a key if and only if settlement, leaf index and amount agree, for amounts without the separator |
| Backup.SeparatorsCanCollide | mobile/src/services/BackupService.ts:161-164 | with the separator in an amount two different claims share a key |
| Backup.WalletStorage.SaveNotesBulk | mobile/src/services/NoteStorageService.ts:364-403 | exactly the notes whose write lands are stored, and their ids merged into the index, each once; an index without repeats stays so |
| Backup.WalletStorage.RestoreNotes | mobile/src/services/BackupService.ts:133-149 | an id is indexed exactly if it was or a row carries it and its write landed, its body then being the first such row; nothing else changes; added plus skipped is the section size |
| Backup.WalletStorage.RestoreClaims | mobile/src/services/BackupService.ts:161-209 | malformed and known rows are skipped, first new rows appended all or none, each stored with every field of its row under a new id; counts add up |
| Backup.WalletStorage.AddMany | mobile/src/services/AddressBookService.ts:319-354 | each row's own result: invalid, added if its address is new, or duplicate; first valid rows of new addresses are appended in one write, and only that write can fail |
| Backup.WalletStorage.RestoreBook | mobile/src/services/BackupService.ts:215-229 | added, skipped and invalid make up the section; it fails exactly when a new row cannot be written |
| Backup.WalletStorage.Restore | mobile/src/services/BackupService.ts:115-232 | the three sections in order, failing exactly when new claims or new book rows cannot be written; every section's new content in each case, claims already merged when the book fails included; every row is accounted for |
| Backup.RestoreIsAdditive | mobile/src/services/BackupService.ts:20-23 | whatever writes land, indexed notes keep their bodies and claims and book rows stay in front unchanged |
| Backup.SecondRestoreAddsNothing | mobile/src/services/BackupService.ts:110-114 | once all writes landed, restoring the same file again changes no notes, no claims and, normalising addresses alike, no book rows |
| Backup.OwnExportAddsNothing | mobile/src/services/BackupService.ts:58-78 | restoring a wallet's own export changes no notes, no claims and, its addresses being normalised, no book rows |
| Backup.ExportRestoresWallet | mobile/src/services/BackupService.ts:58-78 | restoring an export onto an empty wallet brings back every note, and each section is the exported one in order (claims up to ids and empty order ids) if and only if no two of its rows share a key |
| Backup.RestoreStaysKeyed | mobile/src/services/NoteStorageService.ts:372-379 | restores keep every body stored under its own note's id |
| Backup.RestoreStaysNormalised | mobile/src/services/AddressBookService.ts:247-284 | restores keep every stored address normalised |
| OpenApi.CircularHasNoRanking | apps/docs/lib/openapi.ts:121-123 | ranks fall along every path of references, so a circle has no ranking |
| OpenApi.RankedIffNotCircular | apps/docs/lib/openapi.ts:121-123 | a document has a ranking if and only if its references do not run in a circle |
| OpenApi.ExampleUnique | apps/docs/lib/openapi.ts:142-185 | the memo-free definition depends on document and schema only |
| OpenApi.ExampleOfParts | apps/docs/lib/openapi.ts:162-185 | the example is the given one, else an object of its properties' examples in order, else one item's, else the first enum value, else the type's stand-in, else null |
| OpenApi.ExampleOfReference | apps/docs/lib/openapi.ts:142-160 | a reference stands for the component it names, whatever stands beside it, and for null if it names none; an empty one counts as none |
| OpenApi.ExampleGenerator.ExampleFromSchema | apps/docs/lib/openapi.ts:142-160 | from any valid cache, terminates with the memo-free value, keeps the cache valid, and begins no expansion twice |
| OpenApi.ExampleGenerator.BuildExample | apps/docs/lib/openapi.ts:169-185 | the same for a schema's own parts, in property order |
| OpenApi.ExampleGenerator.Generate | apps/docs/lib/openapi.ts:142-146 | the same for an optional schema, over the life of a document's cache |
| SharedObFetch.SupersededAnswersDoNotMatter | frontend/app/lib/sharedObFetch.ts:70-92 | under every interleaving, leaving out all answers to superseded requests shows the same data, error and loading |
| SharedObFetch.NothingShownAfterUnmount | frontend/app/lib/sharedObFetch.ts:95-98 | answers that come in after unmounting change nothing that was shown |
| SharedObFetch.ShownCame | frontend/app/lib/sharedObFetch.ts:74-92 | in every run the data shown is the body that came for a well-answered request, and the error the message of a failure |
| SharedObFetch.NewestAnswerIsShown | frontend/app/lib/sharedObFetch.ts:74-92 | the newest request's body or failure is what is shown when it comes |
| SharedObFetch.EffectIsShown | frontend/app/lib/sharedObFetch.ts:57-72 | a new path loads and keeps the old data meanwhile, no path clears everything |
| SharedObFetch.StepStaysInStep | frontend/app/lib/sharedObFetch.ts:57-99 | loading exactly while the newest request is outstanding is kept by every step, with the one exception of a URL that would go away between effect runs |
| SharedObFetch.ConfiguredRunsStayInStep | frontend/app/lib/sharedObFetch.ts:57-99 | with a base URL it holds in every run until unmount, and settled data comes from the newest request |
| SharedObFetch.UnconfiguredStaysIdle | frontend/app/lib/sharedObFetch.ts:57-58 | without a base URL nothing is ever requested or shown |
| SharedObFetch.SharedObHook.RunEffect | frontend/app/lib/sharedObFetch.ts:57-72 | an effect run supersedes the old request and starts the new one or clears the view |
| SharedObFetch.SharedObHook.OnResponse | frontend/app/lib/sharedObFetch.ts:74-83 | a response moves only the newest request on |
| SharedObFetch.SharedObHook.OnBody | frontend/app/lib/sharedObFetch.ts:83-92 | the body that came is shown for the newest request, and nothing changes for another |
| SharedObFetch.SharedObHook.OnFailure | frontend/app/lib/sharedObFetch.ts:86-92 | a failure clears data and shows its message for the newest request, and nothing changes for another |
| MarketQuote.CancelledAttemptsDoNotMatter | mobile/src/hooks/useMarketQuote.ts:92-135 | under every interleaving, leaving out all that cancelled attempts do gives the same quote |
| MarketQuote.NoQuoteAfterUnmount | mobile/src/hooks/useMarketQuote.ts:131-135 | whatever comes back after unmounting changes no quote |
| MarketQuote.ResolvedIsShown | mobile/src/hooks/useMarketQuote.ts:101-106 | a route that comes back for the open attempt is shown, with inputs that were rendered |
| MarketQuote.RejectedIsShown | mobile/src/hooks/useMarketQuote.ts:107-128 | a failure keeps the last quote and shows its message; without a router all is cleared |
| MarketQuote.RenderIsShown | mobile/src/hooks/useMarketQuote.ts:79-97 | new inputs load at once and keep the last quote meanwhile, inputs that cannot be quoted clear it, the same ones change nothing |
| MarketQuote.MatchIff | mobile/src/hooks/useMarketQuote.ts:47-61 | inputs match exactly when both are there and agree in everything |
| MarketQuote.RunsStayInStep | mobile/src/hooks/useMarketQuote.ts:86-140 | until unmount, loading exactly while the uncancelled attempt is outstanding; route and params come and go together |
| MarketQuote.StoredQuoteWasFetched | mobile/src/hooks/useMarketQuote.ts:99-128 | in every run the stored route answered a fetch sent with the stored params, kept quotes after failures included |
| MarketQuote.MatchingQuoteIsForTheseInputs | mobile/src/hooks/useMarketQuote.ts:47-61 | when the params match, the route was fetched for the submitted inputs |
| MarketQuote.MarketQuoteHook.OnRender | mobile/src/hooks/useMarketQuote.ts:79-97 | the effect runs only for a new signature or enablement, cancelling the attempt before it |
| MarketQuote.MarketQuoteHook.OnTimer | mobile/src/hooks/useMarketQuote.ts:99-104 | when the debounce ends the attempt's own params are sent |
| MarketQuote.MarketQuoteHook.OnResolve | mobile/src/hooks/useMarketQuote.ts:101-106 | a route is stored with the params it was sent for, unless cancelled |
| MarketQuote.MarketQuoteHook.OnReject | mobile/src/hooks/useMarketQuote.ts:107-128 | a failure keeps the quote, a missing router clears it, a cancelled one does nothing |
| FeeMath.CeilIsLeast | frontend/app/lib/gasEstimate.ts:72-75 | ceilDiv is the least multiple count that reaches the dividend |
| FeeMath.GasCostIsLeast | frontend/app/lib/gasEstimate.ts:49-64 | the gas cost is the least token amount covering the scaled gas of the settlement and of every claim, with at least one claim counted |
| FeeMath.GasIsPriced | frontend/app/lib/gasEstimate.ts:37-52 | gas units times the known price or 30 gwei; nothing is estimated without a sell amount or token price |
| FeeMath.FeeCoversGas | frontend/app/lib/gasEstimate.ts:66-67 | the floored fee covers the gas cost if and only if the rate is at least the estimated minimum |
| FeeMath.FeeAndNetAddUp | frontend/app/lib/fee.ts:11-14 | fee and net make up the gross amount for every rate up to the whole, and exactly when |
| FeeMath.MinReceiveIsTight | mobile/src/lib/market-amounts.ts:30-33 | the doubly floored minimum is never above the exact one and less than two units below |
| FeeMath.BuyAmountIsFloor | mobile/src/lib/market-amounts.ts:26-32 | the amount to buy is what the sold units are worth, rounded down |
| FeeMath.TruncatesTowardsZero | frontend/app/lib/gasEstimate.ts:72-75 | integer division rounds towards zero for either sign |

## Left out

- Poseidon and every other cryptographic primitive: a parameter; a hash call that rejects is not modelled.
- The text form of field elements: the table is hexadecimal and hashes are decimal, the model compares values.
- A reorg in the middle of one scan: one scan sees one chain.
- CommitmentProof.ProveNote: computing the note's commitment, and the relayer-served proof that skips the scan.
- Clearing a pool's data while its scan is in flight: the old run's cleanup can then remove a newer entry.
- CommitmentScan.CommitmentScanner.GetCommitmentLeaves: a joining caller gets the identity of the shared run, not a second copy of its result.
- RangeScan.ScanNewRange: that the four chunks of a batch are fetched at the same time.
- MnemonicVerify.DoneOnlyAfterAllAnswers: about the controls each screen offers; the rendering itself and word splitting are not part of this model.
- RelayerBook.BuildPairOptions: the display labels of options.
- RelayerBook.ShowOrderbooks: which relayers are targets, and the early return that keeps the old books when there is no target or no option.
- Order-book level aggregation, price formatting and column sorting (frontend/app/relayer/page.tsx:70-120, 306-325): floating-point display.
- The block-timestamp cache and the second rendering pass of the activity feed: would only add easy members.
- Backup.WalletStorage.SaveNotesBulk: a failing index write and the one-time migrations of old storage layouts; two notes of one id in a batch (a restore sends none) are written in order and land alike.
- Backup.WalletStorage.RestoreClaims: orphaned secrets of an append that failed half-way, which the app never lists; leaf indices are integers.
- JSON text, version and shape checks of a backup file.
- OpenApi.ExampleGenerator.Generate: documents whose references run in a circle, on which the source does not terminate; names inherited by every JavaScript object.
- Sharing of one cached example object between callers: examples are values.
- FeeMath.FeeCoversGas: the conversion of the minimum rate to a floating-point number, and the rounding of the token price.
- Parsing of human-readable amounts, and slippage outside 0..10000 basis points.
- React scheduling beyond the order of events, abort signals seen by the aggregator, request timeouts.
