/** One step of each background worker, with threads, sleeps and the
    progress display removed and every remote call turned into an input:
    the chain follower, the harvester, the sender's transaction builder and
    counters, and the statistics gate of the checker. */
module Workers {
  import opened Types
  import Decimal
  import Chain
  import Client
  import opened Blocks
  import opened Storage

  const SAFE_NUMBER_INTERVAL: U64 := 10
  const MOST_UNSPENT_CELLS_COUNT: nat := 50000
  /** Blocks the follower fetches per iteration at most. */
  const BLOCKS_PER_ROUND: nat := 5
  /** The height distance of the trailing statistics window. */
  const NUMBER_KEEP: nat := 50

  // ---------------------------------------------------------------------------
  // The chain follower (`refresh_status`)

  /** `tx_cells`: one `(tx.hash, index as u32, capacity)` per entry, or None
      when a capacity does not parse (the source unwraps and panics). */
  function CellRowsOf(es: seq<Entry>): (r: Option<seq<(Hash, U32, U64)>>)
    ensures r.Some? <==> forall i | 0 <= i < |es| :: Decimal.ParseU64(es[i].output.capacity).Some?
    ensures r.Some? ==> |r.value| == |es|
    ensures r.Some? ==> forall i | 0 <= i < |es| ::
                r.value[i] == (es[i].txHash, AsU32(es[i].index), Decimal.ParseU64(es[i].output.capacity).value)
  {
    if es == [] then Some([])
    else
      var init := es[..|es| - 1];
      var last := es[|es| - 1];
      assert forall i | 0 <= i < |init| :: init[i] == es[i];
      match CellRowsOf(init)
      case None => None
      case Some(rows) =>
        match Decimal.ParseU64(last.output.capacity)
        case None => None
        case Some(c) => Some(rows + [(last.txHash, AsU32(last.index), c)])
  }

  /** `tx_hashes`: the block's transaction hashes in order. */
  function TxHashes(b: BlockView): (hs: seq<Hash>)
    ensures |hs| == |b.transactions| && forall i | 0 <= i < |hs| :: hs[i] == b.transactions[i].hash
  {
    seq(|b.transactions|, i requires 0 <= i < |b.transactions| => b.transactions[i].hash)
  }

  /** What the follower takes from a fetched block: its timestamp, its
      transaction hashes and its `tx_cells`; None when the block is missing or
      its timestamp or a capacity does not parse, on which the source panics. */
  datatype Decoded = Decoded(timestamp: U64, hashes: seq<Hash>, cells: seq<(Hash, U32, U64)>)

  function DecodeBlock(remote: map<U64, BlockView>, number: U64): (d: Option<Decoded>)
    ensures d.Some? <==> number in remote && Decimal.ParseU64(remote[number].timestamp).Some? &&
                         CellRowsOf(Flatten(remote[number].transactions)).Some?
    ensures d.Some? ==> d.value == Decoded(Decimal.ParseU64(remote[number].timestamp).value,
                                           TxHashes(remote[number]),
                                           CellRowsOf(Flatten(remote[number].transactions)).value)
  {
    if number !in remote then None
    else
      var b := remote[number];
      match Decimal.ParseU64(b.timestamp)
      case None => None
      case Some(ts) =>
        match CellRowsOf(Flatten(b.transactions))
        case None => None
        case Some(cells) => Some(Decoded(ts, TxHashes(b), cells))
  }

  /** The blocks one iteration stores, in order, and whether it halted. */
  datatype Plan = Plan(blocks: seq<(U64, Decoded)>, halted: bool)

  /** The inner loop's choice of heights: at most `cnt` from `next` while
      `next < safe`, stopping (halted) at the first block that cannot be decoded. */
  function SyncPlan(next: U64, safe: U64, cnt: nat, decode: U64 -> Option<Decoded>): Plan
    decreases cnt
  {
    if cnt == 0 || next >= safe then Plan([], false)
    else
      match decode(next)
      case None => Plan([], true)
      case Some(d) =>
        var rest := SyncPlan(next + 1, safe, cnt - 1, decode);
        Plan([(next, d)] + rest.blocks, rest.halted)
  }

  /** Block decoding as the follower sees it: a function of the height. */
  function Decoder(remote: map<U64, BlockView>): U64 -> Option<Decoded>
  {
    (n: U64) => DecodeBlock(remote, n)
  }

  /** The three writes for one block, the `chain_status` row last. */
  function StoreBlock(t: Tables, number: U64, d: Decoded): Tables
  {
    ChainStatusUpdated(ChainCellsSaved(ChainTransactionsSaved(t, number, d.hashes), d.cells), number, d.timestamp)
  }

  function StoreAll(t: Tables, bs: seq<(U64, Decoded)>): Tables
    decreases |bs|
  {
    if bs == [] then t else StoreAll(StoreBlock(t, bs[0].0, bs[0].1), bs[1..])
  }

  datatype Follow = Follow(tables: Tables, current: U64, halted: bool)

  /** Where the follower resumes: one past the highest recorded height
      (`x + 1` on a `u64`, wrapping), or 0 on an empty `chain_status`. */
  function NextHeight(t: Tables): (n: U64)
    ensures t.chainStatus == map[] ==> n == 0
    ensures HeightsInRange(t) && t.chainStatus != map[] ==>
              n == SelectChainNumber(t).value + 1 && forall h | h in t.chainStatus :: h < n
  {
    match SelectChainNumber(t)
    case None => 0
    case Some(x) =>
      assert HeightsInRange(t) ==> AsI64(x) == x;
      (x + 1) % U64_MODULUS
  }

  /** One iteration of the follower's outer loop. `tip` is the answer to
      `tip_block_number` (None when the call failed); `remote` answers
      `block_by_number`. */
  function FollowerSpec(t: Tables, current: U64, tip: Option<U64>, decode: U64 -> Option<Decoded>): Follow
  {
    var refreshed := tip.Some? && tip.value != current;
    var t1 := if refreshed then WalletStatusUpdated(t, TIP, tip.value) else t;
    var cur := if refreshed then tip.value else current;
    FollowerAfterTip(t1, cur, decode)
  }

  /** The rest of the iteration once the tip is known. */
  function FollowerAfterTip(t1: Tables, cur: U64, decode: U64 -> Option<Decoded>): Follow
  {
    if cur <= SAFE_NUMBER_INTERVAL then Follow(t1, cur, false)
    else
      var safe := cur - SAFE_NUMBER_INTERVAL;
      var next := NextHeight(t1);
      if safe > next then
        var p := SyncPlan(next, safe, BLOCKS_PER_ROUND, decode);
        Follow(StoreAll(t1, p.blocks), cur, p.halted)
      else Follow(t1, cur, false)
  }

  method FollowerStep(ledger: Ledger, current: U64, tip: Option<U64>, remote: map<U64, BlockView>)
    returns (current': U64, halted: bool)
    modifies ledger
    ensures Follow(ledger.State(), current', halted) == FollowerSpec(old(ledger.State()), current, tip, Decoder(remote))
  {
    current', halted := current, false;
    if tip.Some? && current != tip.value {
      current' := tip.value;
      ledger.UpdateTipStatus(tip.value);
    }
    halted := FollowFromTip(ledger, current', Decoder(remote));
  }

  /** The follower's work once `current` is up to date: sync if the safe
      height is ahead of the next height to fetch. `decode` fetches and
      decodes the block at a height. */
  method FollowFromTip(ledger: Ledger, current: U64, decode: U64 -> Option<Decoded>) returns (halted: bool)
    modifies ledger
    ensures Follow(ledger.State(), current, halted) == FollowerAfterTip(old(ledger.State()), current, decode)
  {
    ghost var t := ledger.State();
    halted := false;
    if current <= SAFE_NUMBER_INTERVAL {
      return;
    }
    var safe := current - SAFE_NUMBER_INTERVAL;
    var next: U64 := match SelectChainNumber(ledger.State()) case None => 0 case Some(x) => (x + 1) % U64_MODULUS;
    assert next == NextHeight(t);
    if safe > next {
      halted := SyncRound(ledger, next, safe, BLOCKS_PER_ROUND, decode);
    }
  }

  /** The inner loop: up to `count` blocks from `next`, below `safe`.
      `decode` fetches and decodes the block at a height (`DecodeBlock` over
      the node's answers); None stops the loop where the source panics. */
  method SyncRound(ledger: Ledger, next: U64, safe: U64, count: nat, decode: U64 -> Option<Decoded>)
    returns (halted: bool)
    modifies ledger
    ensures var p := SyncPlan(next, safe, count, decode);
            ledger.State() == StoreAll(old(ledger.State()), p.blocks) && halted == p.halted
  {
    ghost var plan := SyncPlan(next, safe, count, decode);
    ghost var goal := StoreAll(ledger.State(), plan.blocks);
    var number: U64 := next;
    var cnt := count;
    while cnt != 0 && number < safe
      invariant StoreAll(ledger.State(), SyncPlan(number, safe, cnt, decode).blocks) == goal
      invariant SyncPlan(number, safe, cnt, decode).halted == plan.halted
      decreases cnt
    {
      var d := decode(number);
      if d.None? {
        return true;
      }
      ghost var rest := SyncPlan(number + 1, safe, cnt - 1, decode);
      assert ([(number, d.value)] + rest.blocks)[1..] == rest.blocks;
      ledger.SaveChainTransactions(number, d.value.hashes);
      ledger.SaveChainCells(d.value.cells);
      ledger.UpdateChainStatus(number, d.value.timestamp);
      number := number + 1;
      cnt := cnt - 1;
    }
    return false;
  }

  /** One follower iteration stores blocks at consecutive heights from
      `next`, at most `cnt` of them and all below `safe`; it stops short of
      both bounds only by halting, at a height it could not decode. */
  lemma {:induction false} SyncPlanShape(next: U64, safe: U64, cnt: nat, decode: U64 -> Option<Decoded>)
    ensures var p := SyncPlan(next, safe, cnt, decode);
            |p.blocks| <= cnt &&
            (forall i | 0 <= i < |p.blocks| ::
               p.blocks[i].0 == next + i < safe && decode(p.blocks[i].0) == Some(p.blocks[i].1)) &&
            (!p.halted ==> |p.blocks| == cnt || next + |p.blocks| >= safe) &&
            (p.halted ==> |p.blocks| < cnt && next + |p.blocks| < safe && decode(next + |p.blocks|).None?)
    decreases cnt
  {
    if cnt > 0 && next < safe && decode(next).Some? {
      var rest := SyncPlan(next + 1, safe, cnt - 1, decode);
      var p := SyncPlan(next, safe, cnt, decode);
      SyncPlanShape(next + 1, safe, cnt - 1, decode);
      forall i | 1 <= i < |p.blocks| ensures p.blocks[i] == rest.blocks[i - 1] {
      }
    }
  }

  /** Storing blocks adds exactly their heights to `chain_status` and every
      transaction hash of each to `chain_transactions`; no earlier
      `chain_transactions` key is lost and the cursors are untouched. */
  lemma {:induction false} StoreAllRecords(t: Tables, bs: seq<(U64, Decoded)>)
    ensures var t' := StoreAll(t, bs);
            t'.chainStatus.Keys == t.chainStatus.Keys + (set i | 0 <= i < |bs| :: AsI64(bs[i].0)) &&
            t.chainTransactions.Keys <= t'.chainTransactions.Keys && t'.walletStatus == t.walletStatus &&
            forall i, j | 0 <= i < |bs| && 0 <= j < |bs[i].1.hashes| :: bs[i].1.hashes[j] in t'.chainTransactions
    decreases |bs|
  {
    if bs != [] {
      var t1 := StoreBlock(t, bs[0].0, bs[0].1);
      BlockFactsStored(t, bs[0].0, bs[0].1);
      StoreAllRecords(t1, bs[1..]);
      HeightsCons(bs);
      forall i, j | 0 <= i < |bs| && 0 <= j < |bs[i].1.hashes| ensures bs[i].1.hashes[j] in StoreAll(t, bs).chainTransactions {
        if i > 0 { assert bs[1..][i - 1] == bs[i]; }
      }
    }
  }

  /** The heights of a list of blocks: the first one's and those of the rest. */
  lemma HeightsCons(bs: seq<(U64, Decoded)>)
    requires bs != []
    ensures (set i | 0 <= i < |bs| :: AsI64(bs[i].0)) ==
            {AsI64(bs[0].0)} + (set i | 0 <= i < |bs[1..]| :: AsI64(bs[1..][i].0))
  {
    var heights := set i | 0 <= i < |bs| :: AsI64(bs[i].0);
    var later := set i | 0 <= i < |bs[1..]| :: AsI64(bs[1..][i].0);
    forall h | h in heights ensures h in {AsI64(bs[0].0)} + later {
      var i :| 0 <= i < |bs| && h == AsI64(bs[i].0);
      if i > 0 { assert bs[1..][i - 1] == bs[i]; }
    }
    forall h | h in later ensures h in heights {
      var i :| 0 <= i < |bs[1..]| && h == AsI64(bs[1..][i].0);
      assert bs[1..][i] == bs[i + 1];
    }
  }

  /** Storing blocks leaves the `chain_status` timestamp of every other height as it was. */
  lemma {:induction false} StoreAllKeepsOtherHeights(t: Tables, bs: seq<(U64, Decoded)>)
    ensures var t' := StoreAll(t, bs);
            forall h | h in t.chainStatus && h !in (set i | 0 <= i < |bs| :: AsI64(bs[i].0)) ::
              h in t'.chainStatus && t'.chainStatus[h] == t.chainStatus[h]
    decreases |bs|
  {
    if bs != [] {
      var t1 := StoreBlock(t, bs[0].0, bs[0].1);
      BlockFactsStored(t, bs[0].0, bs[0].1);
      StoreAllKeepsOtherHeights(t1, bs[1..]);
      HeightsCons(bs);
    }
  }

  /** Storing blocks gives every `tx_cells` key of each a `chain_cells` row,
      and no earlier `chain_cells` key is lost. */
  lemma {:induction false} StoreAllCells(t: Tables, bs: seq<(U64, Decoded)>)
    ensures var t' := StoreAll(t, bs);
            t.chainCells.Keys <= t'.chainCells.Keys &&
            forall i, j | 0 <= i < |bs| && 0 <= j < |bs[i].1.cells| ::
              (bs[i].1.cells[j].0, bs[i].1.cells[j].1) in t'.chainCells
    decreases |bs|
  {
    if bs != [] {
      var t1 := StoreBlock(t, bs[0].0, bs[0].1);
      BlockFactsStored(t, bs[0].0, bs[0].1);
      StoreAllCells(t1, bs[1..]);
      forall i, j | 0 <= i < |bs| && 0 <= j < |bs[i].1.cells|
        ensures (bs[i].1.cells[j].0, bs[i].1.cells[j].1) in StoreAll(t, bs).chainCells
      {
        if i > 0 { assert bs[1..][i - 1] == bs[i]; }
      }
    }
  }

  /** No later block of `bs` has the height of block `i`. */
  predicate LastAtHeight(bs: seq<(U64, Decoded)>, i: nat)
    requires i < |bs|
  {
    forall k | i < k < |bs| :: AsI64(bs[k].0) != AsI64(bs[i].0)
  }

  /** The `chain_status` row of a stored height holds the timestamp of the
      last block stored at that height. */
  lemma {:induction false} StoreAllTimestamps(t: Tables, bs: seq<(U64, Decoded)>)
    ensures var t' := StoreAll(t, bs);
            forall i | 0 <= i < |bs| && LastAtHeight(bs, i) ::
              AsI64(bs[i].0) in t'.chainStatus && t'.chainStatus[AsI64(bs[i].0)] == AsI64(bs[i].1.timestamp)
    decreases |bs|
  {
    if bs != [] {
      var t1 := StoreBlock(t, bs[0].0, bs[0].1);
      BlockFactsStored(t, bs[0].0, bs[0].1);
      StoreAllKeepsOtherHeights(t1, bs[1..]);
      StoreAllTimestamps(t1, bs[1..]);
      var t' := StoreAll(t, bs);
      assert t' == StoreAll(t1, bs[1..]);
      forall i | 0 <= i < |bs| && LastAtHeight(bs, i)
        ensures AsI64(bs[i].0) in t'.chainStatus && t'.chainStatus[AsI64(bs[i].0)] == AsI64(bs[i].1.timestamp)
      {
        if i == 0 {
          var later := set k | 0 <= k < |bs[1..]| :: AsI64(bs[1..][k].0);
          forall k | 0 <= k < |bs[1..]| ensures AsI64(bs[1..][k].0) != AsI64(bs[0].0) {
            assert bs[1..][k] == bs[k + 1];
          }
          assert AsI64(bs[0].0) !in later;
        } else {
          assert bs[1..][i - 1] == bs[i];
          assert LastAtHeight(bs[1..], i - 1) by {
            forall k | i - 1 < k < |bs[1..]| ensures AsI64(bs[1..][k].0) != AsI64(bs[1..][i - 1].0) {
              assert bs[1..][k] == bs[k + 1];
            }
          }
        }
      }
    }
  }

  /** The heights the follower records in one iteration are exactly the
      consecutive heights it decoded, all below the safe height, and each
      comes with its block's transaction hashes. */
  lemma SyncRecordsHeights(t: Tables, next: U64, safe: U64, cnt: nat, remote: map<U64, BlockView>)
    ensures var p := SyncPlan(next, safe, cnt, Decoder(remote));
            var t' := StoreAll(t, p.blocks);
            t'.chainStatus.Keys == t.chainStatus.Keys + (set i | 0 <= i < |p.blocks| :: AsI64(p.blocks[i].0)) &&
            forall i | 0 <= i < |p.blocks| ::
              p.blocks[i].0 == next + i < safe && i < cnt && p.blocks[i].0 in remote &&
              forall j | 0 <= j < |remote[p.blocks[i].0].transactions| ::
                remote[p.blocks[i].0].transactions[j].hash in t'.chainTransactions
  {
    var p := SyncPlan(next, safe, cnt, Decoder(remote));
    SyncPlanShape(next, safe, cnt, Decoder(remote));
    StoreAllRecords(t, p.blocks);
    forall i | 0 <= i < |p.blocks|
      ensures p.blocks[i].0 in remote
      ensures forall j | 0 <= j < |remote[p.blocks[i].0].transactions| ::
                remote[p.blocks[i].0].transactions[j].hash in StoreAll(t, p.blocks).chainTransactions
    {
      assert DecodeBlock(remote, p.blocks[i].0) == Some(p.blocks[i].1);
    }
  }

  /** Each block the follower records in one iteration leaves its parsed
      timestamp in the `chain_status` row of its height and a `chain_cells`
      row for every one of its outputs. */
  lemma SyncStoresBlockContents(t: Tables, next: U64, safe: U64, cnt: nat, remote: map<U64, BlockView>)
    ensures var p := SyncPlan(next, safe, cnt, Decoder(remote));
            var t' := StoreAll(t, p.blocks);
            forall i | 0 <= i < |p.blocks| ::
              p.blocks[i].0 in remote && Decimal.ParseU64(remote[p.blocks[i].0].timestamp).Some? &&
              AsI64(p.blocks[i].0) in t'.chainStatus &&
              t'.chainStatus[AsI64(p.blocks[i].0)] == AsI64(Decimal.ParseU64(remote[p.blocks[i].0].timestamp).value) &&
              forall j | 0 <= j < |Flatten(remote[p.blocks[i].0].transactions)| ::
                (Flatten(remote[p.blocks[i].0].transactions)[j].txHash,
                 AsU32(Flatten(remote[p.blocks[i].0].transactions)[j].index)) in t'.chainCells
  {
    var p := SyncPlan(next, safe, cnt, Decoder(remote));
    SyncPlanShape(next, safe, cnt, Decoder(remote));
    StoreAllCells(t, p.blocks);
    StoreAllTimestamps(t, p.blocks);
    var t' := StoreAll(t, p.blocks);
    forall i | 0 <= i < |p.blocks|
      ensures p.blocks[i].0 in remote && Decimal.ParseU64(remote[p.blocks[i].0].timestamp).Some?
      ensures AsI64(p.blocks[i].0) in t'.chainStatus
      ensures t'.chainStatus[AsI64(p.blocks[i].0)] == AsI64(Decimal.ParseU64(remote[p.blocks[i].0].timestamp).value)
      ensures forall j | 0 <= j < |Flatten(remote[p.blocks[i].0].transactions)| ::
                (Flatten(remote[p.blocks[i].0].transactions)[j].txHash,
                 AsU32(Flatten(remote[p.blocks[i].0].transactions)[j].index)) in t'.chainCells
    {
      assert DecodeBlock(remote, p.blocks[i].0) == Some(p.blocks[i].1);
      assert LastAtHeight(p.blocks, i) by {
        forall k | i < k < |p.blocks| ensures AsI64(p.blocks[k].0) != AsI64(p.blocks[i].0) {
          AsI64Injective(p.blocks[k].0, p.blocks[i].0);
        }
      }
    }
  }

  /** One follower iteration starts by adopting the tip answer when it
      differs from the current tip, writing it to the `tip` cursor, and does
      nothing more until the tip is above the margin. */
  lemma FollowerRefreshesTip(t: Tables, current: U64, tip: Option<U64>, decode: U64 -> Option<Decoded>)
    ensures var f := FollowerSpec(t, current, tip, decode);
            var refreshed := tip.Some? && tip.value != current;
            var t1 := if refreshed then WalletStatusUpdated(t, TIP, tip.value) else t;
            f.current == (if tip.Some? then tip.value else current) &&
            f == FollowerAfterTip(t1, f.current, decode) &&
            (refreshed ==> SelectWalletStatus(t1, TIP) == tip.value) &&
            (f.current <= SAFE_NUMBER_INTERVAL ==> f.tables == t1 && !f.halted)
  {
    if tip.Some? && tip.value != current {
      WalletStatusRoundTrip(t, TIP, tip.value, STOLEN);
    }
  }

  /** From `t1` to `t'` the cursors stay, no height is lost, and every new
      height `h` has `lo <= h < hi` and `h < below`. */
  predicate AddsHeightsWithin(t1: Tables, t': Tables, lo: int, hi: int, below: int)
  {
    && t'.walletStatus == t1.walletStatus
    && t1.chainStatus.Keys <= t'.chainStatus.Keys
    && forall h | h in t'.chainStatus && h !in t1.chainStatus :: lo <= AsU64(h) < hi && AsU64(h) < below
  }

  /** Every height the follower records in one iteration is one of the at
      most `BLOCKS_PER_ROUND` consecutive heights from one past the recorded
      maximum, each below `tip - 10` (so none is recorded unless the tip is
      above 10); the cursors are not touched. */
  lemma FollowerSyncWindow(t1: Tables, cur: U64, decode: U64 -> Option<Decoded>)
    ensures AddsHeightsWithin(t1, FollowerAfterTip(t1, cur, decode).tables,
                              NextHeight(t1), NextHeight(t1) + BLOCKS_PER_ROUND, cur - SAFE_NUMBER_INTERVAL)
  {
    if cur > SAFE_NUMBER_INTERVAL {
      var safe := cur - SAFE_NUMBER_INTERVAL;
      var next := NextHeight(t1);
      if safe > next {
        SyncedWindow(t1, next, safe, BLOCKS_PER_ROUND, decode);
      }
    }
  }

  /** The heights one round adds lie in the `cnt` heights from `next`, below `safe`. */
  lemma SyncedWindow(t1: Tables, next: U64, safe: U64, cnt: nat, decode: U64 -> Option<Decoded>)
    ensures AddsHeightsWithin(t1, StoreAll(t1, SyncPlan(next, safe, cnt, decode).blocks), next, next + cnt, safe)
  {
    var p := SyncPlan(next, safe, cnt, decode);
    SyncPlanShape(next, safe, cnt, decode);
    StoreAllRecords(t1, p.blocks);
    var t' := StoreAll(t1, p.blocks);
    var added := set i | 0 <= i < |p.blocks| :: AsI64(p.blocks[i].0);
    forall h | h in t'.chainStatus && h !in t1.chainStatus
      ensures next <= AsU64(h) < next + cnt && AsU64(h) < safe
    {
      assert h in added;
      var i :| 0 <= i < |p.blocks| && h == AsI64(p.blocks[i].0);
      CastRoundTrip(p.blocks[i].0);
    }
  }

  /** After storing one block its height has a `chain_status` row holding
      the block's timestamp, each of its transaction hashes a
      `chain_transactions` row and each of its `tx_cells` keys a `chain_cells`
      row; the other `chain_status` rows and all earlier keys are as before. */
  lemma BlockFactsStored(t: Tables, number: U64, d: Decoded)
    ensures var t1 := StoreBlock(t, number, d);
            t1.chainStatus.Keys == t.chainStatus.Keys + {AsI64(number)} &&
            t1.chainStatus[AsI64(number)] == AsI64(d.timestamp) &&
            (forall h | h in t.chainStatus && h != AsI64(number) :: t1.chainStatus[h] == t.chainStatus[h]) &&
            t1.walletStatus == t.walletStatus
    ensures var t1 := StoreBlock(t, number, d);
            t.chainTransactions.Keys <= t1.chainTransactions.Keys &&
            forall i | 0 <= i < |d.hashes| :: d.hashes[i] in t1.chainTransactions
    ensures var t1 := StoreBlock(t, number, d);
            t.chainCells.Keys <= t1.chainCells.Keys &&
            forall i | 0 <= i < |d.cells| :: (d.cells[i].0, d.cells[i].1) in t1.chainCells
  {
    var rows := HashRows(d.hashes, AsI64(number));
    InsertOrIgnoreAllKeeps(t.chainTransactions, rows);
    forall i | 0 <= i < |d.hashes| ensures d.hashes[i] in RowKeys(rows) {
      RowKeysHas(rows, i);
    }
    var t0 := ChainTransactionsSaved(t, number, d.hashes);
    var crows := CellRows(d.cells);
    InsertOrIgnoreAllKeeps(t0.chainCells, crows);
    forall i | 0 <= i < |d.cells| ensures (d.cells[i].0, d.cells[i].1) in RowKeys(crows) {
      RowKeysHas(crows, i);
    }
  }

  lemma {:induction false} RowKeysHas<K, V>(rows: seq<(K, V)>, i: nat)
    requires i < |rows|
    ensures rows[i].0 in RowKeys(rows)
    decreases |rows|
  {
    if i < |rows| - 1 {
      RowKeysHas(rows[..|rows| - 1], i);
    }
  }

  /** Until the `chain_status` row is written, the recorded maximum height
      does not move: the block's facts go in first. */
  lemma FactsBeforeStatus(t: Tables, number: U64, hashes: seq<Hash>, cells: seq<(Hash, U32, U64)>)
    ensures SelectChainNumber(ChainCellsSaved(ChainTransactionsSaved(t, number, hashes), cells)) == SelectChainNumber(t)
  {
  }

  /** Output `k` of transaction `j` of a block becomes the `tx_cells` row at
      the position after all outputs of the earlier transactions. */
  lemma TxCellsAt(b: BlockView, j: nat, k: nat)
    requires j < |b.transactions| && k < |b.transactions[j].outputs|
    requires CellRowsOf(Flatten(b.transactions)).Some?
    ensures var cells := CellRowsOf(Flatten(b.transactions)).value;
            var p := |Flatten(b.transactions[..j])| + k;
            p < |cells| && Decimal.ParseU64(b.transactions[j].outputs[k].capacity).Some? &&
            cells[p] == (b.transactions[j].hash, AsU32(k),
                         Decimal.ParseU64(b.transactions[j].outputs[k].capacity).value)
  {
    FlattenAt(b.transactions, j, k);
  }

  /** The follower does nothing until the tip is above the margin, which is
      stricter than `calculate_safe_number` (tip 10 has a safe height there). */
  lemma FollowerWaitsAtMargin(t: Tables, decode: U64 -> Option<Decoded>)
    ensures FollowerSpec(t, 10, None, decode) == Follow(t, 10, false)
    ensures Chain.CalculateSafeNumber(10) == Some(0)
  {
  }

  // ---------------------------------------------------------------------------
  // The harvester (`steal_capacity`)

  datatype Window = TipTooLow | Blocking | Open(stolen: U64, safe: U64)

  /** The outer loop's entry: the `tip` cursor must pass the margin and the
      `stolen` cursor must be below the safe height derived from it. */
  function HarvestWindow(t: Tables): (w: Window)
    ensures w.Open? ==> w.stolen < w.safe && w.safe + SAFE_NUMBER_INTERVAL == SelectWalletStatus(t, TIP)
    ensures w.Open? ==> w.stolen == SelectWalletStatus(t, STOLEN)
    ensures w == TipTooLow <==> SelectWalletStatus(t, TIP) <= SAFE_NUMBER_INTERVAL
    ensures w == Blocking <==> SelectWalletStatus(t, TIP) > SAFE_NUMBER_INTERVAL &&
                               SelectWalletStatus(t, STOLEN) >= SelectWalletStatus(t, TIP) - SAFE_NUMBER_INTERVAL
  {
    var tip := SelectWalletStatus(t, TIP);
    if tip <= SAFE_NUMBER_INTERVAL then TipTooLow
    else
      var safe := tip - SAFE_NUMBER_INTERVAL;
      var stolen := SelectWalletStatus(t, STOLEN);
      if stolen >= safe then Blocking else Open(stolen, safe)
  }

  datatype Outcome = Paused | Done | Sent | SendFailed | Poor | PrepareFailed

  datatype Harvest = Harvest(tables: Tables, stolen: U64, outcome: Outcome)

  /** One iteration of the inner loop, given what `steal` and `send` answered. */
  function HarvestTransition(t: Tables, stolen: U64, safe: U64, steal: Result<Option<Transaction>>, send: Result<Hash>): Harvest
  {
    if CountUnspentCells(t) > MOST_UNSPENT_CELLS_COUNT then Harvest(t, stolen, Paused)
    else if stolen >= safe then Harvest(t, stolen, Done)
    else
      match steal
      case Err(_) => Harvest(t, stolen, PrepareFailed)
      case Ok(None) => Harvest(WalletStatusUpdated(t, STOLEN, stolen), stolen + 1, Poor)
      case Ok(Some(_)) =>
        match send
        case Err(_) => Harvest(t, stolen, SendFailed)
        case Ok(hash) => Harvest(WalletStatusUpdated(StolenTransactionSaved(t, stolen, hash), STOLEN, stolen), stolen + 1, Sent)
  }

  /** The inner-loop iteration. `fetched` answers `cells_by_lock_hash` for
      height `stolen`, `leastCapacity` is the occupied capacity of an empty
      output under `lockOut`, and `send` answers sending the built transaction. */
  method HarvestStep(ledger: Ledger, stolen: U64, safe: U64, fetched: Result<seq<Client.LiveCell>>,
                     lockIn: Script, lockOut: Script, leastCapacity: U64, send: Result<Hash>)
    returns (stolen': U64, outcome: Outcome)
    requires leastCapacity > 0
    modifies ledger
    ensures Harvest(ledger.State(), stolen', outcome) ==
            HarvestTransition(old(ledger.State()), stolen, safe,
                              Client.Steal(fetched, lockIn, lockOut, leastCapacity, Client.USIZE_MAX), send)
  {
    stolen' := stolen;
    if CountUnspentCells(ledger.State()) > MOST_UNSPENT_CELLS_COUNT {
      return stolen', Paused;
    }
    if stolen >= safe {
      return stolen', Done;
    }
    var txOpt := Client.Steal(fetched, lockIn, lockOut, leastCapacity, Client.USIZE_MAX);
    if txOpt.Err? {
      return stolen', PrepareFailed;
    }
    if txOpt.value.None? {
      ledger.UpdateStolenStatus(stolen);
      return stolen + 1, Poor;
    }
    if send.Err? {
      return stolen', SendFailed;
    }
    ledger.SaveStolenTransaction(stolen, send.value);
    ledger.UpdateStolenStatus(stolen);
    stolen' := stolen + 1;
    outcome := Sent;
  }

  /** The cursor-advance policy: a failure, a pause or the end of the window
      changes nothing; a send or a poor height records the height under
      `stolen` and moves on by one; only a send saves a stolen transaction. */
  lemma HarvestPolicy(t: Tables, stolen: U64, safe: U64, steal: Result<Option<Transaction>>, send: Result<Hash>)
    ensures var h := HarvestTransition(t, stolen, safe, steal, send);
            (h.outcome in {Paused, Done, SendFailed, PrepareFailed} ==> h.tables == t && h.stolen == stolen) &&
            (h.outcome in {Sent, Poor} ==>
               stolen < safe && h.stolen == stolen + 1 && SelectWalletStatus(h.tables, STOLEN) == stolen &&
               h.tables.chainStatus == t.chainStatus && h.tables.transactions == t.transactions) &&
            (h.outcome == Poor ==> h.tables.stolenTransactions == t.stolenTransactions) &&
            (h.outcome == Sent ==> send.Ok? && send.value in h.tables.stolenTransactions) &&
            (h.outcome == Paused <==> CountUnspentCells(t) > MOST_UNSPENT_CELLS_COUNT) &&
            h.stolen <= (if stolen < safe then safe else stolen)
  {
    var h := HarvestTransition(t, stolen, safe, steal, send);
    if h.outcome in {Sent, Poor} {
      var t1 := if h.outcome == Sent then StolenTransactionSaved(t, stolen, send.value) else t;
      WalletStatusRoundTrip(t1, STOLEN, stolen, TIP);
    }
  }

  /** A poor height (its cells parse and hold no more than the least
      capacity in total, which covers a height with no cells) is recorded and
      skipped, not retried, whatever `send` would have answered. */
  lemma PoorHeightSkipped(t: Tables, stolen: U64, safe: U64, cells: seq<Client.LiveCell>, lockIn: Script, lockOut: Script,
                          least: U64, send: Result<Hash>)
    requires 0 < least && stolen < safe && CountUnspentCells(t) <= MOST_UNSPENT_CELLS_COUNT
    requires Client.AllParse(cells) && Client.TotalCapacity(cells) <= least
    ensures var h := HarvestTransition(t, stolen, safe, Client.Steal(Ok(cells), lockIn, lockOut, least, Client.USIZE_MAX), send);
            h.outcome == Poor && h.stolen == stolen + 1 && h.tables == WalletStatusUpdated(t, STOLEN, stolen)
  {
  }

  /** As written, the `stolen` cursor holds the last processed height, so a
      window re-entered after an advance starts from that height again. */
  lemma HarvestResumesAtLastHeight(t: Tables, stolen: U64, safe: U64, steal: Result<Option<Transaction>>, send: Result<Hash>)
    requires HarvestWindow(t) == Open(stolen, safe)
    requires HarvestTransition(t, stolen, safe, steal, send).outcome in {Sent, Poor}
    ensures var h := HarvestTransition(t, stolen, safe, steal, send);
            h.stolen == stolen + 1 && HarvestWindow(h.tables) == Open(stolen, safe)
  {
    var h := HarvestTransition(t, stolen, safe, steal, send);
    var t1 := if h.outcome == Sent then StolenTransactionSaved(t, stolen, send.value) else t;
    WalletStatusRoundTrip(t1, STOLEN, stolen, TIP);
  }

  // ---------------------------------------------------------------------------
  // The sender (`send_transactions`)

  /** The self-transfer built for one fetched cell: the cell's out point and
      a transaction spending it into one output of the same capacity under `lock`. */
  function SelfTransfer(row: (CellInput, U64), lock: Script): (r: (Hash, U32, Transaction))
    ensures |r.2.outputs| == 1 && r.2.outputs[0].data == [] && r.2.outputs[0].typeScript == None
  {
    var (input, cap) := row;
    (input.previousOutput.txHash, input.previousOutput.index,
     Transaction(0, [], [input], [CellOutput(cap, [], lock, None)], []))
  }

  /** The self-transfer spends exactly its cell and pays all of its capacity to `lock`. */
  lemma SelfTransferConserves(row: (CellInput, U64), lock: Script)
    ensures var (h, i, tx) := SelfTransfer(row, lock);
            OutPoint(h, i) == row.0.previousOutput &&
            tx.inputs == [row.0] && |tx.outputs| == 1 && tx.outputs[0].lock == lock &&
            Sum(Capacities(tx.outputs)) == row.1 &&
            tx.version == 0 && tx.deps == [] && tx.witnesses == []
  {
    var tx := SelfTransfer(row, lock).2;
    assert Capacities(tx.outputs)[..0] == [];
  }

  function RowCapacities(rows: seq<(CellInput, U64)>): (cs: seq<nat>)
    ensures |cs| == |rows| && forall i | 0 <= i < |rows| :: cs[i] == rows[i].1
  {
    seq(|rows|, i requires 0 <= i < |rows| => rows[i].1)
  }

  function BatchOutputCapacities(data: seq<(Hash, U32, Transaction)>): (cs: seq<nat>)
    requires forall i | 0 <= i < |data| :: |data[i].2.outputs| == 1
    ensures |cs| == |data| && forall i | 0 <= i < |data| :: cs[i] == data[i].2.outputs[0].capacity
  {
    seq(|data|, i requires 0 <= i < |data| => data[i].2.outputs[0].capacity)
  }

  /** The batch built from a fetch: one transaction per cell, in fetch order;
      the batch moves exactly the capacity it fetched. */
  method BuildTransactions(rows: seq<(CellInput, U64)>, lock: Script) returns (data: seq<(Hash, U32, Transaction)>)
    ensures |data| == |rows|
    ensures forall i | 0 <= i < |rows| ::
              data[i].2.inputs == [rows[i].0] && data[i].2.outputs == [CellOutput(rows[i].1, [], lock, None)] &&
              OutPoint(data[i].0, data[i].1) == rows[i].0.previousOutput &&
              data[i].2.version == 0 && data[i].2.deps == [] && data[i].2.witnesses == []
    ensures Sum(BatchOutputCapacities(data)) == Sum(RowCapacities(rows))
  {
    data := [];
    var i := 0;
    while i < |rows|
      invariant 0 <= i <= |rows| && |data| == i
      invariant forall j | 0 <= j < i :: data[j] == SelfTransfer(rows[j], lock)
    {
      var (input, cap) := rows[i];
      var output := CellOutput(cap, [], lock, None);
      var h := input.previousOutput.txHash;
      var idx := input.previousOutput.index;
      var tx := Transaction(0, [], [input], [output], []);
      data := data + [(h, idx, tx)];
      i := i + 1;
    }
    assert BatchOutputCapacities(data) == RowCapacities(rows);
  }

  /** The counters of sent, passed and failed transactions. The ghost `log`
      is the sequence of outcome messages received so far. */
  class Counters {
    var sent: nat
    var passed: nat
    var failed: nat
    ghost var log: seq<bool>

    ghost predicate Valid()
      reads this
    {
      sent == |log| && passed == Occurrences(log, true) && failed == Occurrences(log, false)
    }

    constructor ()
      ensures Valid() && log == [] && sent == 0 && passed == 0 && failed == 0
    {
      sent, passed, failed := 0, 0, 0;
      log := [];
    }

    /** One outcome message: `passed` is whether the node accepted the transaction. */
    method Record(ok: bool)
      requires Valid()
      modifies this
      ensures Valid() && log == old(log) + [ok]
      ensures sent == old(sent) + 1
      ensures passed == old(passed) + (if ok then 1 else 0)
      ensures failed == old(failed) + (if ok then 0 else 1)
    {
      assert (log + [ok])[..|log|] == log;
      sent := sent + 1;
      if ok {
        passed := passed + 1;
      } else {
        failed := failed + 1;
      }
      log := log + [ok];
    }
  }

  function Occurrences(log: seq<bool>, b: bool): nat
    decreases |log|
  {
    if log == [] then 0 else Occurrences(log[..|log| - 1], b) + (if log[|log| - 1] == b then 1 else 0)
  }

  lemma {:induction false} OccurrencesSplit(log: seq<bool>)
    ensures Occurrences(log, true) + Occurrences(log, false) == |log|
    decreases |log|
  {
    if log != [] {
      OccurrencesSplit(log[..|log| - 1]);
    }
  }

  /** Every message counts once as sent and once as exactly one of passed or failed. */
  lemma SentIsPassedPlusFailed(c: Counters)
    requires c.Valid()
    ensures c.sent == c.passed + c.failed
  {
    OccurrencesSplit(c.log);
  }

  // ---------------------------------------------------------------------------
  // The checker (`check_transactions`)

  /** The trailing window starts `NUMBER_KEEP` heights below the recorded
      chain height, and only once that height is more than `NUMBER_KEEP`
      beyond the turn's starting height. */
  function TrailingWindowStart(chain: Option<U64>, turn: U64): (r: Option<U64>)
    ensures r.Some? <==> chain.Some? && chain.value > turn + NUMBER_KEEP
    ensures r.Some? ==> turn < r.value && r.value + NUMBER_KEEP == chain.value
  {
    if chain.Some? && chain.value > turn + NUMBER_KEEP then Some(chain.value - NUMBER_KEEP) else None
  }

  /** Statistics are shown only when count, start and end are all non-zero. */
  predicate Displayable(s: Stats)
  {
    s.count != 0 && s.start != 0 && s.end != 0
  }

  datatype Report = Report(turn: Option<Stats>, trailing: Option<Stats>)

  /** What one checker iteration shows: the turn's statistics from the
      `turn` cursor, and the trailing window's, each when displayable. */
  ghost function CheckStep(t: Tables): (r: Report)
    ensures var turn := SelectWalletStatus(t, TURN);
            (r.turn.Some? <==> Displayable(DoStatistics(t, turn))) &&
            (r.turn.Some? ==> r.turn.value == DoStatistics(t, turn))
    ensures var w := TrailingWindowStart(SelectChainNumber(t), SelectWalletStatus(t, TURN));
            (r.trailing.Some? <==> w.Some? && Displayable(DoStatistics(t, w.value))) &&
            (r.trailing.Some? ==> r.trailing.value == DoStatistics(t, w.value))
  {
    var turn := SelectWalletStatus(t, TURN);
    var s := DoStatistics(t, turn);
    var w := TrailingWindowStart(SelectChainNumber(t), turn);
    var s2 := if w.Some? then Some(DoStatistics(t, w.value)) else None;
    Report(if Displayable(s) then Some(s) else None,
           if s2.Some? && Displayable(s2.value) then s2 else None)
  }

  /** The trailing window never counts more than the whole turn. */
  lemma TrailingWithinTurn(t: Tables)
    requires HeightsInRange(t)
    ensures var turn := SelectWalletStatus(t, TURN);
            var w := TrailingWindowStart(SelectChainNumber(t), turn);
            w.Some? ==> DoStatistics(t, w.value).count <= DoStatistics(t, turn).count
  {
    var turn := SelectWalletStatus(t, TURN);
    var w := TrailingWindowStart(SelectChainNumber(t), turn);
    if w.Some? {
      var c := SelectChainNumber(t).value;
      assert AsI64(c) == c;
      StatisticsCountMonotone(t, turn, w.value);
    }
  }

  /** Displayable statistics count at least one committed submission. */
  lemma DisplayableImpliesCommitted(t: Tables, number: U64)
    requires Displayable(DoStatistics(t, number))
    ensures CountTransactions(t).committed > 0
  {
    StatisticsCountBounded(t, number);
  }

  /** Whatever the checker shows rests on a committed submission. */
  lemma DisplayedImpliesCommitted(t: Tables)
    requires CheckStep(t).turn.Some? || CheckStep(t).trailing.Some?
    ensures CountTransactions(t).committed > 0
  {
    var turn := SelectWalletStatus(t, TURN);
    var w := TrailingWindowStart(SelectChainNumber(t), turn);
    if CheckStep(t).turn.Some? {
      DisplayableImpliesCommitted(t, turn);
    } else {
      DisplayableImpliesCommitted(t, w.value);
    }
  }
}
