# ckb-machinegun in Dafny

ckb-machinegun is a load generator for a CKB node. Four background workers share one SQLite ledger:

- A **follower** copies confirmed blocks (heights below the tip minus ten) into the ledger.
- A **harvester** consolidates the cells of a source lock, one height at a time, into fixed-size cells under an owned lock.
- A **sender** spends each of those cells in a one-in/one-out self-transfer and counts the outcomes.
- A **checker** reports how many submissions committed, and how fast.

A separate wallet store picks single confirmed cells for the `shot` command. It records per-lock scan cursors.

This project models the core of that program and proves what it promises:

- the consolidation transaction built by `steal` (`Client`);
- the ledger's tables and statements (`Storage`);
- the wallet's cursor encoding and its cell picker (`Wallet`);
- the safe-height rule (`Chain`);
- one step of each worker (`Workers`).

Three support modules carry the rest:

- `Types` holds the shared data types, `u64`/`u32` as subset types of `int`, and an output-capacity sum.
- `Decimal` holds the decimal `u64` parser that capacities and timestamps go through.
- `Blocks` holds the JSON block view and its flattening into tagged outputs.

Modelling choices:

- **Ledger tables.** They are maps inside the `Tables` datatype. `Storage.Ledger` is a class whose methods update them in place, each proved equal to a pure transition function. The queries are functions of `Ledger.State()`. SQLite stores `INTEGER` as `i64`, so heights, timestamps and capacities pass through explicit `as i64` / `as u64` casts (`AsI64`, `AsU64`).
- **Worker loops.** Each loop becomes one step. Every remote answer is an input: the tip number, the blocks by height, the live cells, and the send result.
- **Panics.** An `unwrap` that would panic on a missing block or an unparsable number ends the follower's step as `halted`, or the picker's as `MissingBlock`.
- **Methods with loops.** `SaveChainTransactions`, `SaveChainCells`, `FetchRows` (the row loop of `FetchUnspentCells`), `TakeACell`, `ScanHeight`, `SyncRound` and `BuildTransactions` keep the source's loops. Each is proved against a recursive specification.

## Model

| member | source | states |
|---|---|---|
| Chain.CalculateSafeNumber | src/chain.rs:11-19 | None exactly when the tip is below 10; otherwise the result is the tip minus 10, never above the tip |
| Chain.SafeNumberMonotone | src/chain.rs:13-18 | a higher tip never gives a lower safe height |
| Chain.SafeNumberExamples | src/chain.rs:13-18 | tip 25 gives 15, tip 10 gives 0, tip 5 gives None |
| Decimal.ParseShowRoundTrip | src/client.rs:39 | every `u64` written in decimal parses back to itself |
| Decimal.ParseRejectsOverflow | src/client.rs:39-41 | a decimal numeral above `u64::MAX` does not parse |
| Decimal.ParseRejectsMalformed | src/client.rs:39-41 | empty text, a lone sign, a minus sign and non-digits are rejected; a leading `+` and leading zeros are accepted |
| Client.ParseCapacities | src/client.rs:37-41 | succeeds exactly when every capacity string parses, and then yields the parsed values in cell order |
| Client.CheckedSum | src/client.rs:42-46 | `try_fold(0, checked_add)` yields the exact sum when it fits in a `u64`, and fails exactly when it does not |
| Client.Split | src/client.rs:72-82 | there are `min(total / least - 1, max_count)` full outputs, a change of at least `least`, and the full outputs plus the change give back the total |
| Client.HarvestOutputs | src/client.rs:73-93 | output 0 is the change under `lock_in` with at least `least`; every other output is exactly `least` under `lock_out`; there are `min(total/least - 1, max_count) + 1` outputs; the capacities sum to the total |
| Client.Inputs | src/client.rs:47-57 | one input per fetched cell, in order, with that cell's out point, empty args and `since = 0` |
| Client.Steal | src/client.rs:27-107 | a fetch error is passed through; an unparsable capacity gives "parse capacity failed"; a sum above `u64::MAX` gives "sum capacity overflow"; otherwise no transaction exactly when the total is at most the least capacity, and a transaction of version 0 with no deps or witnesses, the cells as inputs and the harvest outputs |
| Client.UncappedHarvest | src/client.rs:72-91 | with `max_count = !0` there are `total / least` outputs and the change is `total % least + least` |
| Client.HarvestExample | src/client.rs:74-91 | total 1,000,000, least 6100 and max_count 10 give ten outputs of 6100 and a change of 939,000 |
| Storage.CastRoundTrip | src/storage.rs:113-129 | a `u64` stored as `i64` reads back unchanged |
| Storage.InsertOrIgnoreAllKeeps | src/storage.rs:182-224 | INSERT OR IGNORE of a batch adds exactly the batch's new keys and keeps every existing row's value |
| Storage.InsertOrIgnoreAllFirstWins | src/storage.rs:202-224 | a new key repeated within a batch keeps the value of its first row |
| Storage.InsertOrIgnoreAllPresent | src/storage.rs:182-241 | a batch whose keys are all present changes nothing |
| Storage.InsertOrIgnoreAllIdempotent | src/storage.rs:182-241 | repeating a batch leaves the table as the first run left it |
| Storage.SelectWalletStatus | src/storage.rs:123-129 | a key never written reads as 0; otherwise the stored `i64` cast back to `u64` |
| Storage.WalletStatusRoundTrip | src/storage.rs:113-153 | after writing a cursor, reading it gives the written number, and every other cursor reads as before |
| Storage.SelectChainNumber | src/storage.rs:174-180 | None exactly when `chain_status` is empty; otherwise a recorded height that is the maximum of them all |
| Storage.ChainNumberAfterUpdate | src/storage.rs:155-180 | after recording a height, the chain number is the larger of that height and the previous maximum |
| Storage.SaveChainFactsIdempotent | src/storage.rs:182-241 | saving the same chain transactions, chain cells or stolen transaction twice leaves the tables as saving once |
| Storage.ChainCellsKeepFirstValue | src/storage.rs:202-224 | an existing `chain_cells` row keeps its first capacity |
| Storage.SubmissionRemovesUnspent | src/storage.rs:243-322 | with a tip recorded, submitting an unspent cell removes exactly that cell from the unspent set and lowers the count by one; without a tip nothing is inserted |
| Storage.SubmissionStampedWithTip | src/storage.rs:243-267 | a new submission row carries the given hash and the current tip cursor as its height; an existing row is never overwritten |
| Storage.UnspentCells | src/storage.rs:269-283 | the unspent cells are exactly the `chain_cells` rows of a stolen transaction that no submission has spent |
| Storage.CountUnspentCells | src/storage.rs:306-322 | the unspent count never exceeds the number of `chain_cells` rows |
| Storage.CountTransactions | src/storage.rs:324-337 | sent and passed both equal the number of submissions, and committed never exceeds them |
| Storage.DoStatistics | src/storage.rs:339-374 | a count of 0 comes with all five aggregates 0, from `ifnull(.., 0)` |
| Storage.StatisticsEmpty | src/storage.rs:339-374 | with no committed submission at or above the height, every aggregate is 0 |
| Storage.StatisticsCountBounded | src/storage.rs:339-374 | the statistics count never exceeds the committed count |
| Storage.StatisticsCountMonotone | src/storage.rs:339-374 | raising the starting height never raises the count |
| Storage.LatencySumBounds | src/storage.rs:339-374 | the minimum latency is at most the maximum, and the latency sum lies between count times the minimum and count times the maximum |
| Storage.Ledger.constructor | src/storage.rs:41-111 | a freshly created ledger has all six tables empty |
| Storage.Ledger.UpdateWalletStatus | src/storage.rs:113-121 | INSERT OR REPLACE of `(key, number as i64)` into `wallet_status`, with nothing else changed |
| Storage.Ledger.UpdateTipStatus | src/storage.rs:131-133 | the `tip` cursor is written |
| Storage.Ledger.UpdateTurnStatus | src/storage.rs:139-141 | the `turn` cursor is written |
| Storage.Ledger.UpdateStolenStatus | src/storage.rs:147-149 | the `stolen` cursor is written |
| Storage.Ledger.UpdateChainStatus | src/storage.rs:155-172 | INSERT OR REPLACE of the timestamp for the height, with nothing else changed |
| Storage.Ledger.SaveChainTransactions | src/storage.rs:182-200 | each hash, in order, is INSERT OR IGNOREd with the height |
| Storage.Ledger.SaveChainCells | src/storage.rs:202-224 | each `(tx_hash, index)`, in order, is INSERT OR IGNOREd with its capacity |
| Storage.Ledger.SaveStolenTransaction | src/storage.rs:226-241 | the hash is INSERT OR IGNOREd into `stolen_transactions` with the height |
| Storage.Ledger.SaveTransaction | src/storage.rs:243-267 | the submission is stamped with the tip cursor, and nothing happens without one |
| Storage.FetchRows | src/storage.rs:286-303 | the row loop returns `min(limit, number of selected cells)` rows with distinct out points; each is a selected `chain_cells` row as an input with `since = 0`, no arguments and its capacity `as u64` |
| Storage.Ledger.FetchUnspentCells | src/storage.rs:269-304 | returns `min(limit, unspent count)` distinct rows; each is a `chain_cells` row of a stolen transaction without a submission, as an input with its capacity |
| Wallet.CursorKey | src/wallet.rs:43-48 | the stored key is the flag byte followed by the lock hash |
| Wallet.CursorKeyInjective | src/wallet.rs:16-48 | two stored keys are equal exactly when flag and key are; so the dirty and checked cursors of a lock never collide |
| Wallet.NumberRoundTrip | src/wallet.rs:43-72 | decoding the 8 little-endian bytes of a `u64` gives it back |
| Wallet.BytesRoundTrip | src/wallet.rs:63-72 | encoding the value of 8 bytes gives the same bytes back |
| Wallet.SelectNumber | src/wallet.rs:63-74 | None exactly when the key is absent; otherwise the number whose little-endian bytes are stored |
| Wallet.CursorRoundTrip | src/wallet.rs:43-82 | after `insert_number`, `select_number` of the same cursor returns the number, and every other cursor reads as before |
| Wallet.FirstTakeable | src/wallet.rs:127-140 | a found output is under the lock with status `true`; None exactly when no output in the list is |
| Wallet.FirstTakeableIsFirst | src/wallet.rs:127-140 | the found output is preceded only by outputs that cannot be taken |
| Wallet.ScanStartIgnoresDirty | src/wallet.rs:114-126 | as written, both reads take the checked cursor: the scan starts at the checked cursor or 0, not dirty, and the dirty cursor has no effect |
| Wallet.TakeWithoutBlocks | src/wallet.rs:104-107 | when no highest block number is recorded, nothing is found and nothing changes |
| Wallet.ScanFrom | src/wallet.rs:127-152 | a missing block is reported at a height of the range that the store lacks; a found cell's status becomes `false` and is the only status change; otherwise no status changes |
| Wallet.ScanFoundIsFirst | src/wallet.rs:127-140 | a found cell lies in the first height of the range with a takeable output, and is the first takeable output there; it was takeable and is set to taken, the only status change |
| Wallet.ScanNotFound | src/wallet.rs:127-152 | when the scan finds nothing, every height of the range is stored, none has a takeable output, and no status changes |
| Wallet.ScanTouchesOnlyCursors | src/wallet.rs:141-151 | the scan writes no key other than the lock's two cursors |
| Wallet.DirtyScanKeepsChecked | src/wallet.rs:141-151 | once an unknown cell has been met, the checked cursor is no longer written |
| Wallet.ScanRecordsLastHeight | src/wallet.rs:127-151 | a scan that finds nothing leaves the last height of the range under the dirty cursor when `has_dirty` came in set or some scanned height had an output of the lock without a status, and under the checked cursor otherwise |
| Wallet.CleanScanKeepsDirty | src/wallet.rs:127-151 | a scan that starts clean and meets no output of the lock without a status never writes the dirty cursor |
| Wallet.WalletStore.InsertNumberInto | src/wallet.rs:43-56 | the key-value store gets the cursor entry; blocks and statuses are unchanged |
| Wallet.WalletStore.TakeACell | src/wallet.rs:100-154 | the result and the new cursors and statuses are those of the recursive scan `Take` over the old store; blocks are unchanged |
| Wallet.WalletStore.ScanHeight | src/wallet.rs:128-143 | returns the first takeable output of the height; when there is none, `has_dirty` ends up set exactly when it was set before or an output under the lock has no status |
| Workers.CellRowsOf | src/main.rs:130-153 | `tx_cells` holds one row per output: its transaction's hash, its index within that transaction, and its parsed capacity; it is None exactly when some capacity does not parse |
| Workers.TxHashes | src/main.rs:154-158 | the block's transaction hashes, in order |
| Workers.TxCellsAt | src/main.rs:130-153 | output `k` of transaction `j` becomes the row right after all outputs of the earlier transactions, tagged with `j`'s hash and `k` |
| Workers.DecodeBlock | src/main.rs:126-158 | a block yields the follower's facts exactly when it is present, its timestamp parses and every capacity parses; then they are the parsed timestamp, the transaction hashes and `tx_cells` |
| Workers.NextHeight | src/main.rs:109-113 | 0 on an empty `chain_status`; otherwise one past the recorded maximum, above every recorded height |
| Workers.FollowerStep | src/main.rs:95-173 | one outer iteration of the follower: it equals `FollowerSpec` of the old ledger |
| Workers.FollowFromTip | src/main.rs:103-173 | the part after the tip refresh equals `FollowerAfterTip` for the same block decoder |
| Workers.SyncRound | src/main.rs:120-173 | the inner loop stores exactly the blocks of `SyncPlan`, in order, and halts exactly when the plan does |
| Workers.SyncPlanShape | src/main.rs:120-172 | at most 5 blocks at consecutive heights from the next height, all below the safe height; it stops short of both bounds only by halting at an undecodable height |
| Workers.StoreAllRecords | src/main.rs:159-165 | storing the blocks adds exactly their heights to `chain_status` and every transaction hash to `chain_transactions`; no earlier `chain_transactions` key is lost and the cursors are unchanged |
| Workers.StoreAllKeepsOtherHeights | src/main.rs:159-165 | storing the blocks leaves the timestamp of every other height unchanged |
| Workers.StoreAllCells | src/main.rs:159-165 | storing the blocks gives every `tx_cells` key of each a `chain_cells` row, and no earlier `chain_cells` key is lost |
| Workers.StoreAllTimestamps | src/main.rs:159-165 | the `chain_status` row of a stored height holds the timestamp of the last block stored at that height |
| Workers.SyncRecordsHeights | src/main.rs:120-173 | the heights one iteration records are the decoded ones, below the safe height, and each of its block's transaction hashes is stored |
| Workers.SyncStoresBlockContents | src/main.rs:120-173 | each block recorded in one iteration has its parsed timestamp under its height and a `chain_cells` row for every one of its outputs |
| Workers.FollowerRefreshesTip | src/main.rs:95-106 | a new tip answer becomes the current tip and the `tip` cursor; nothing else happens while the tip is at most 10 |
| Workers.SyncedWindow | src/main.rs:120-172 | one sync round keeps the cursors and every earlier height, and each height it adds lies in the `cnt` heights from `next`, below `safe` |
| Workers.FollowerSyncWindow | src/main.rs:107-173 | every height recorded in one iteration lies in the five heights after the recorded maximum and below tip − 10 |
| Workers.BlockFactsStored | src/main.rs:159-165 | after one block is stored, its height holds its timestamp, each of its transaction hashes and `tx_cells` keys is recorded, earlier keys are kept and the other heights' timestamps are unchanged |
| Workers.FactsBeforeStatus | src/main.rs:159-165 | saving the transactions and cells leaves `select_chain_number` unchanged; only the `chain_status` row advances it |
| Workers.FollowerWaitsAtMargin | src/main.rs:103-106 | at tip 10 the follower does nothing, although `calculate_safe_number(10)` is `Some(0)` |
| Workers.HarvestWindow | src/main.rs:192-205 | the tip is too low exactly when the `tip` cursor is at most 10; the window blocks exactly when the tip is above 10 and the `stolen` cursor is at least tip − 10; otherwise it opens from the `stolen` cursor up to tip − 10 |
| Workers.HarvestStep | src/main.rs:207-259 | one inner-loop iteration of the harvester equals `HarvestTransition` on the old ledger, with `steal` given `max_count = !0` |
| Workers.HarvestPolicy | src/main.rs:207-259 | a pause, the end of the window and either failure change nothing; a send or a poor height records the height under `stolen` and moves on by one; only a send saves a stolen transaction; the step pauses exactly when more than 50,000 cells are unspent |
| Workers.PoorHeightSkipped | src/main.rs:244-252 | a height whose cells hold no more than the least capacity in total (no cells included) is recorded under `stolen` and skipped as poor, whatever the send would answer |
| Workers.HarvestResumesAtLastHeight | src/main.rs:199-252 | the cursor keeps the last processed height, so re-entering the window starts from that height again |
| Workers.SelfTransfer | src/main.rs:336-357 | the self-transfer has one output, with no data and no type script |
| Workers.SelfTransferConserves | src/main.rs:336-357 | a self-transfer spends exactly its cell into one output of the same capacity under the owned lock, with version 0 and no deps or witnesses |
| Workers.BuildTransactions | src/main.rs:336-357 | one transaction per fetched cell, in order, keyed by its out point; the batch pays out exactly the capacity it fetched |
| Workers.Counters.constructor | src/main.rs:299-301 | all three counters start at 0 |
| Workers.Counters.Record | src/main.rs:307-314 | each message adds one to `sent` and one to exactly one of `passed` or `failed` |
| Workers.SentIsPassedPlusFailed | src/main.rs:299-318 | `sent = passed + failed` always holds |
| Workers.TrailingWindowStart | src/main.rs:404-407 | the trailing window exists exactly when the chain number is above turn + 50, and then it starts 50 below the chain number, above the turn |
| Workers.CheckStep | src/main.rs:389-408 | the turn's statistics are shown exactly when they are displayable, and the trailing window's exactly when the window exists and its statistics are displayable; what is shown is `do_statistics` of the turn or of the window start |
| Workers.TrailingWithinTurn | src/main.rs:389-407 | the trailing window never counts more submissions than the whole turn |
| Workers.DisplayableImpliesCommitted | src/main.rs:391 | statistics that pass the display gate count at least one committed submission |
| Workers.DisplayedImpliesCommitted | src/main.rs:389-408 | whatever the checker shows rests on a committed submission |

## Left out

- Threads, crossbeam channels, the tokio runtime and the 24-hour lock around the connection are left out. Each worker is one sequential step.
- The asynchronous multi-node client and its random endpoint choice are network plumbing and are left out. The sender's model ends at the built batch.
- The SQLite engine, SQL text and hex formatting of hashes are left out. Hashes are opaque byte sequences and tables are maps.
- The schema creation in `init` is modelled as the `Ledger` constructor producing empty tables, not as SQL.
- `occupied_capacity()` belongs to the ckb library. `least_capacity` is an input required to be positive, and the "least capacity capacity overflow" error is not modelled.
- The `cells_by_lock_hash`, `block_by_number`, `tip_block_number` and `send` RPCs are results passed in. The follower receives them as a map of blocks by height; the harvester receives them as the fetch and send results.
- `secp256k1_code_hash_and_dep` in the wallet reads a genesis block through the foreign reader and is not modelled.
- The wallet store's read and write errors are left out. The store is a map, and the lock hash is a parameter rather than computed from the script.
- Floating-point tps, cost and latency display values are not modelled.
- The terminal screen, the sleep helpers, command-line parsing and the `key`, `shot`, `tx` and `sync` subcommands are not modelled.
- `create_unspent_cells_batch` and `sync_client` are not part of this model. The batch id is the `limit` argument of `FetchUnspentCells`.
- The startup writes of `skip_before` and `steal_since`, and the sender's `fetch_cnt` progress counter, are display or configuration and are not modelled.
- `Workers.FollowerStep`: an `unwrap` that panics (missing block, bad timestamp or capacity) is modelled as the step halting after the blocks already stored. A panic that kills the thread is not modelled.
- `Workers.NextHeight`: `x + 1` on a `u64` is modelled as wrapping. The source would panic in a debug build.
- `Workers.Counters.Record`: the `u64` counters are unbounded naturals, so overflow after 2^64 messages is not modelled.
- `Workers.TrailingWindowStart`: `turn_number + number_keep` is unbounded, so a `u64` overflow of that sum is not modelled.
- `Storage.DoStatistics`: SQLite's `sum` and timestamp subtraction are modelled as unbounded integers, so its `i64` overflow is not modelled.
- `Storage.Ledger.FetchUnspentCells`: the rows come in an unspecified order, because the query has no `ORDER BY`. The contract fixes which rows come back, not their order.
- `Storage.Ledger.UpdateWalletStatus`: the `|key| < 16` assertion is kept as a precondition. The three wrappers call it with constants that meet it.
- `Wallet.WalletStore.TakeACell`: the store's highest block number `maxNumber` is a field of its own, not tied to the stored blocks, so the model admits states where a height below it has no block and the scan ends in `MissingBlock`. The source does not rule this out either: it unwraps such a height and panics.
- `Wallet.SelectNumber`: it requires that a stored cursor value be 8 bytes long, which holds for every value `insert_number` writes. The source's `copy_from_slice` would panic on any other length, and that panic is not modelled.
- `Blocks.Flatten` indexes are natural numbers. The `index as u32` cast is modelled by `AsU32`, which keeps the low 32 bits.
