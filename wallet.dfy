/** The wallet over an abstract key-value store: two progress cursors per
    lock (dirty and checked), stored under a flag-prefixed key as 8
    little-endian bytes, and the cell picker `take_a_cell`, which scans the
    stored blocks for the first confirmed cell under a lock and marks it taken. */
module Wallet {
  import opened Types
  import opened Blocks

  const FLAG_DIRTY: Byte := 1
  const FLAG_CHECKED: Byte := 2

  /** The key-value store: raw byte keys to raw byte values. */
  type Store = map<seq<Byte>, seq<Byte>>

  // ---------------------------------------------------------------------------
  // Cursor encoding

  /** `[flag] ++ key`. */
  function CursorKey(flag: Byte, key: seq<Byte>): (k: seq<Byte>)
    ensures |k| == |key| + 1 && k[0] == flag && k[1..] == key
  {
    [flag] + key
  }

  /** Two cursor keys coincide exactly when flag and key both do, so the
      dirty and checked cursors of one lock never collide. */
  lemma CursorKeyInjective(f1: Byte, k1: seq<Byte>, f2: Byte, k2: seq<Byte>)
    ensures CursorKey(f1, k1) == CursorKey(f2, k2) <==> f1 == f2 && k1 == k2
  {
    if CursorKey(f1, k1) == CursorKey(f2, k2) {
      assert CursorKey(f1, k1)[1..] == CursorKey(f2, k2)[1..];
    }
  }

  function Pow256(w: nat): (p: nat)
    ensures p >= 1
  {
    if w == 0 then 1 else 256 * Pow256(w - 1)
  }

  lemma Pow256Eight()
    ensures Pow256(8) == U64_MODULUS
  {
  }

  /** The `w` low bytes of `n`, least significant first. */
  function LeBytes(n: nat, w: nat): (bs: seq<Byte>)
    ensures |bs| == w
  {
    if w == 0 then [] else [n % 256] + LeBytes(n / 256, w - 1)
  }

  /** The number denoted by little-endian bytes. */
  function FromLe(bs: seq<Byte>): nat
  {
    if bs == [] then 0 else bs[0] + 256 * FromLe(bs[1..])
  }

  /** `u64::to_le_bytes`. */
  function ToLeBytes(n: U64): (bs: seq<Byte>)
    ensures |bs| == 8
  {
    LeBytes(n, 8)
  }

  /** `u64::from_le_bytes` of an 8-byte array. */
  function FromLeBytes(bs: seq<Byte>): (n: U64)
    requires |bs| == 8
  {
    FromLeBound(bs);
    Pow256Eight();
    FromLe(bs)
  }

  lemma {:induction false} FromLeBound(bs: seq<Byte>)
    ensures FromLe(bs) < Pow256(|bs|)
  {
    if bs != [] {
      FromLeBound(bs[1..]);
      var rest := FromLe(bs[1..]);
      assert rest + 1 <= Pow256(|bs| - 1);
      assert 256 * (rest + 1) <= 256 * Pow256(|bs| - 1);
    }
  }

  lemma {:induction false} FromLeOfLe(n: nat, w: nat)
    requires n < Pow256(w)
    ensures FromLe(LeBytes(n, w)) == n
  {
    if w > 0 {
      var q := n / 256;
      assert n == 256 * q + n % 256;
      assert q < Pow256(w - 1);
      FromLeOfLe(q, w - 1);
      assert LeBytes(n, w)[1..] == LeBytes(q, w - 1);
    }
  }

  lemma {:induction false} LeOfFromLe(bs: seq<Byte>)
    ensures LeBytes(FromLe(bs), |bs|) == bs
  {
    if bs != [] {
      var rest := FromLe(bs[1..]);
      var n := bs[0] + 256 * rest;
      assert n % 256 == bs[0] && n / 256 == rest;
      LeOfFromLe(bs[1..]);
    }
  }

  /** Decoding an encoded cursor value gives the value back. */
  lemma NumberRoundTrip(n: U64)
    ensures FromLeBytes(ToLeBytes(n)) == n
  {
    Pow256Eight();
    FromLeOfLe(n, 8);
  }

  /** Encoding a decoded 8-byte value gives the bytes back. */
  lemma BytesRoundTrip(bs: seq<Byte>)
    requires |bs| == 8
    ensures ToLeBytes(FromLeBytes(bs)) == bs
  {
    LeOfFromLe(bs);
  }

  /** `insert_number`: store `number.to_le_bytes()` under `[flag] ++ key`. */
  function InsertNumber(kv: Store, flag: Byte, key: seq<Byte>, number: U64): Store
  {
    kv[CursorKey(flag, key) := ToLeBytes(number)]
  }

  /** The value under a cursor key, if any, is 8 bytes long, as `insert_number` writes it. */
  predicate CursorWellFormed(kv: Store, flag: Byte, key: seq<Byte>)
  {
    CursorKey(flag, key) in kv ==> |kv[CursorKey(flag, key)]| == 8
  }

  /** `select_number`: the stored bytes under `[flag] ++ key` read back as a `u64`. */
  function SelectNumber(kv: Store, flag: Byte, key: seq<Byte>): (r: Option<U64>)
    requires CursorWellFormed(kv, flag, key)
    ensures r.None? <==> CursorKey(flag, key) !in kv
    ensures r.Some? ==> ToLeBytes(r.value) == kv[CursorKey(flag, key)]
  {
    if CursorKey(flag, key) in kv then
      var bs := kv[CursorKey(flag, key)];
      BytesRoundTrip(bs);
      Some(FromLeBytes(bs))
    else None
  }

  /** A written cursor reads back, and writing one cursor leaves every other
      cursor, including the other flag of the same lock, as it was. */
  lemma CursorRoundTrip(kv: Store, flag: Byte, key: seq<Byte>, number: U64, flag2: Byte, key2: seq<Byte>)
    requires CursorWellFormed(kv, flag2, key2)
    requires flag2 != flag || key2 != key
    ensures CursorWellFormed(InsertNumber(kv, flag, key, number), flag, key)
    ensures SelectNumber(InsertNumber(kv, flag, key, number), flag, key) == Some(number)
    ensures CursorWellFormed(InsertNumber(kv, flag, key, number), flag2, key2)
    ensures SelectNumber(InsertNumber(kv, flag, key, number), flag2, key2) == SelectNumber(kv, flag2, key2)
  {
    NumberRoundTrip(number);
    CursorKeyInjective(flag, key, flag2, key2);
  }

  // ---------------------------------------------------------------------------
  // The cell picker, specified

  type CellStatus = map<(Hash, U32), bool>

  /** The status key of an entry: `(tx.hash, idx as u32)`. */
  function StatusKey(e: Entry): (Hash, U32)
  {
    (e.txHash, AsU32(e.index))
  }

  /** An output under `lock` whose status is confirmed (`Some(true)`). */
  predicate Takeable(e: Entry, lock: Script, status: CellStatus)
  {
    e.output.lock == lock && StatusKey(e) in status && status[StatusKey(e)]
  }

  /** An output under `lock` with no status at all yet: it makes the height dirty. */
  predicate Unknown(e: Entry, lock: Script, status: CellStatus)
  {
    e.output.lock == lock && StatusKey(e) !in status
  }

  /** The first takeable entry of a list. */
  function FirstTakeable(es: seq<Entry>, lock: Script, status: CellStatus): (r: Option<Entry>)
    ensures r.Some? ==> Takeable(r.value, lock, status)
    ensures r.None? <==> forall i | 0 <= i < |es| :: !Takeable(es[i], lock, status)
  {
    if es == [] then None
    else if Takeable(es[0], lock, status) then Some(es[0])
    else
      assert forall i | 1 <= i < |es| :: es[i] == es[1..][i - 1];
      FirstTakeable(es[1..], lock, status)
  }

  /** The entry found sits at a position before which nothing is takeable. */
  lemma {:induction false} FirstTakeableIsFirst(es: seq<Entry>, lock: Script, status: CellStatus) returns (i: nat)
    requires FirstTakeable(es, lock, status).Some?
    ensures i < |es| && es[i] == FirstTakeable(es, lock, status).value
    ensures forall j | 0 <= j < i :: !Takeable(es[j], lock, status)
  {
    if Takeable(es[0], lock, status) {
      i := 0;
    } else {
      var i' := FirstTakeableIsFirst(es[1..], lock, status);
      i := i' + 1;
      forall j | 0 <= j < i ensures !Takeable(es[j], lock, status) {
        if j > 0 { assert es[j] == es[1..][j - 1]; }
      }
    }
  }

  predicate AnyUnknown(es: seq<Entry>, lock: Script, status: CellStatus)
  {
    exists i | 0 <= i < |es| :: Unknown(es[i], lock, status)
  }

  /** The outputs a stored height offers. */
  function EntriesAt(blocks: map<U64, BlockView>, num: U64): seq<Entry>
    requires num in blocks
  {
    Flatten(blocks[num].transactions)
  }

  /** What the picker reports. `MissingBlock` stands for the panic of
      `select_block_by_number(num)?.unwrap()` on a height the store lacks. */
  datatype TakeResult = Found(txHash: Hash, index: nat, cell: OutputView) | NotFound | MissingBlock(number: U64)

  datatype Scan = Scan(result: TakeResult, kv: Store, status: CellStatus)

  /** The flag of the cursor written after a fully scanned height. */
  function CursorFlag(hasDirty: bool): Byte
  {
    if hasDirty then FLAG_DIRTY else FLAG_CHECKED
  }

  /** The scan of heights `num .. max` with the dirty flag `hasDirty` carried in. */
  function ScanFrom(blocks: map<U64, BlockView>, lock: Script, lockHash: Hash, status: CellStatus, kv: Store,
                    num: U64, max: U64, hasDirty: bool): (r: Scan)
    ensures r.result.MissingBlock? ==> num <= r.result.number < max && r.result.number !in blocks
    ensures !r.result.Found? ==> r.status == status
    ensures r.result.Found? ==> r.status == status[StatusKey(Entry(r.result.txHash, r.result.index, r.result.cell)) := false]
    decreases max - num
  {
    if num >= max then Scan(NotFound, kv, status)
    else if num !in blocks then Scan(MissingBlock(num), kv, status)
    else
      var es := EntriesAt(blocks, num);
      match FirstTakeable(es, lock, status)
      case Some(e) => Scan(Found(e.txHash, e.index, e.output), kv, status[StatusKey(e) := false])
      case None =>
        var dirty := hasDirty || AnyUnknown(es, lock, status);
        ScanFrom(blocks, lock, lockHash, status, InsertNumber(kv, CursorFlag(dirty), lockHash, num), num + 1, max, dirty)
  }

  /** Where the scan starts, as written: both reads use the checked flag, so
      the first number is never larger than the second. */
  function ScanStart(kv: Store, lockHash: Hash): (s: (U64, bool))
    requires CursorWellFormed(kv, FLAG_CHECKED, lockHash)
  {
    var dirtyNumber := SelectNumber(kv, FLAG_CHECKED, lockHash).GetOr(0);
    var checkedNumber := SelectNumber(kv, FLAG_CHECKED, lockHash).GetOr(0);
    if dirtyNumber > checkedNumber then (dirtyNumber, true) else (checkedNumber, false)
  }

  /** `take_a_cell` on the stores. */
  function Take(kv: Store, blocks: map<U64, BlockView>, maxNumber: Option<U64>, status: CellStatus,
                lock: Script, lockHash: Hash): Scan
    requires CursorWellFormed(kv, FLAG_CHECKED, lockHash)
  {
    if maxNumber.None? then Scan(NotFound, kv, status)
    else
      var (minNumber, hasDirty) := ScanStart(kv, lockHash);
      ScanFrom(blocks, lock, lockHash, status, kv, minNumber, maxNumber.value, hasDirty)
  }

  // ---------------------------------------------------------------------------
  // Properties of the picker

  /** The scan starts at the checked cursor (0 if absent) with `has_dirty`
      false, whatever the dirty cursor holds. */
  lemma ScanStartIgnoresDirty(kv: Store, lockHash: Hash, number: U64)
    requires CursorWellFormed(kv, FLAG_CHECKED, lockHash)
    ensures ScanStart(kv, lockHash) == (SelectNumber(kv, FLAG_CHECKED, lockHash).GetOr(0), false)
    ensures CursorWellFormed(InsertNumber(kv, FLAG_DIRTY, lockHash, number), FLAG_CHECKED, lockHash)
    ensures ScanStart(InsertNumber(kv, FLAG_DIRTY, lockHash, number), lockHash) == ScanStart(kv, lockHash)
  {
    CursorKeyInjective(FLAG_DIRTY, lockHash, FLAG_CHECKED, lockHash);
  }

  /** An empty block store yields nothing and changes nothing. */
  lemma TakeWithoutBlocks(kv: Store, blocks: map<U64, BlockView>, status: CellStatus, lock: Script, lockHash: Hash)
    requires CursorWellFormed(kv, FLAG_CHECKED, lockHash)
    ensures Take(kv, blocks, None, status, lock, lockHash) == Scan(NotFound, kv, status)
  {
  }

  /** A found cell is the first takeable output of the lowest height that has
      one; every height scanned before it was present and had none. Its
      status is then `false`, so it cannot be taken again. */
  lemma {:induction false} ScanFoundIsFirst(blocks: map<U64, BlockView>, lock: Script, lockHash: Hash, status: CellStatus,
                                            kv: Store, num: U64, max: U64, hasDirty: bool) returns (h: U64)
    requires ScanFrom(blocks, lock, lockHash, status, kv, num, max, hasDirty).result.Found?
    ensures num <= h < max && h in blocks
    ensures forall g: U64 | num <= g < h :: g in blocks && FirstTakeable(EntriesAt(blocks, g), lock, status).None?
    ensures var r := ScanFrom(blocks, lock, lockHash, status, kv, num, max, hasDirty);
            var e := Entry(r.result.txHash, r.result.index, r.result.cell);
            FirstTakeable(EntriesAt(blocks, h), lock, status) == Some(e) &&
            Takeable(e, lock, status) && !Takeable(e, lock, r.status) &&
            r.status == status[StatusKey(e) := false]
    decreases max - num
  {
    var es := EntriesAt(blocks, num);
    if FirstTakeable(es, lock, status).Some? {
      h := num;
    } else {
      var dirty := hasDirty || AnyUnknown(es, lock, status);
      var kv1 := InsertNumber(kv, CursorFlag(dirty), lockHash, num);
      assert ScanFrom(blocks, lock, lockHash, status, kv, num, max, hasDirty) ==
             ScanFrom(blocks, lock, lockHash, status, kv1, num + 1, max, dirty);
      h := ScanFoundIsFirst(blocks, lock, lockHash, status, kv1, num + 1, max, dirty);
      forall g: U64 | num <= g < h ensures g in blocks && FirstTakeable(EntriesAt(blocks, g), lock, status).None? {
        if g == num {
          assert FirstTakeable(es, lock, status).None?;
        }
      }
    }
  }

  /** Nothing found: every height of the range was present and had no takeable output. */
  lemma {:induction false} ScanNotFound(blocks: map<U64, BlockView>, lock: Script, lockHash: Hash, status: CellStatus,
                                        kv: Store, num: U64, max: U64, hasDirty: bool)
    requires ScanFrom(blocks, lock, lockHash, status, kv, num, max, hasDirty).result.NotFound?
    ensures ScanFrom(blocks, lock, lockHash, status, kv, num, max, hasDirty).status == status
    ensures forall g: U64 | num <= g < max :: g in blocks &&
              forall i | 0 <= i < |EntriesAt(blocks, g)| :: !Takeable(EntriesAt(blocks, g)[i], lock, status)
    decreases max - num
  {
    if num < max {
      var es := EntriesAt(blocks, num);
      var dirty := hasDirty || AnyUnknown(es, lock, status);
      ScanNotFound(blocks, lock, lockHash, status, InsertNumber(kv, CursorFlag(dirty), lockHash, num), num + 1, max, dirty);
    }
  }

  /** The scan writes only the two cursors of its lock; every other key of the store is kept. */
  lemma {:induction false} ScanTouchesOnlyCursors(blocks: map<U64, BlockView>, lock: Script, lockHash: Hash, status: CellStatus,
                                                  kv: Store, num: U64, max: U64, hasDirty: bool, k: seq<Byte>)
    requires k != CursorKey(FLAG_DIRTY, lockHash) && k != CursorKey(FLAG_CHECKED, lockHash)
    ensures var kv' := ScanFrom(blocks, lock, lockHash, status, kv, num, max, hasDirty).kv;
            (k in kv' <==> k in kv) && (k in kv ==> kv'[k] == kv[k])
    decreases max - num
  {
    if num < max && num in blocks {
      var es := EntriesAt(blocks, num);
      if FirstTakeable(es, lock, status).None? {
        var dirty := hasDirty || AnyUnknown(es, lock, status);
        ScanTouchesOnlyCursors(blocks, lock, lockHash, status, InsertNumber(kv, CursorFlag(dirty), lockHash, num), num + 1, max, dirty, k);
      }
    }
  }

  /** Once `has_dirty` is set it stays set: the checked cursor is never written again. */
  lemma {:induction false} DirtyScanKeepsChecked(blocks: map<U64, BlockView>, lock: Script, lockHash: Hash, status: CellStatus,
                                                 kv: Store, num: U64, max: U64)
    ensures var kv' := ScanFrom(blocks, lock, lockHash, status, kv, num, max, true).kv;
            var ck := CursorKey(FLAG_CHECKED, lockHash);
            (ck in kv' <==> ck in kv) && (ck in kv ==> kv'[ck] == kv[ck])
    decreases max - num
  {
    if num < max && num in blocks {
      var es := EntriesAt(blocks, num);
      if FirstTakeable(es, lock, status).None? {
        CursorKeyInjective(FLAG_DIRTY, lockHash, FLAG_CHECKED, lockHash);
        DirtyScanKeepsChecked(blocks, lock, lockHash, status, InsertNumber(kv, FLAG_DIRTY, lockHash, num), num + 1, max);
      }
    }
  }

  /** Some stored height of `num .. max` holds an output of the lock with no status yet. */
  predicate DirtyBetween(blocks: map<U64, BlockView>, lock: Script, status: CellStatus, num: U64, max: U64)
  {
    exists g: U64 | num <= g < max && g in blocks :: AnyUnknown(EntriesAt(blocks, g), lock, status)
  }

  lemma DirtyBetweenStep(blocks: map<U64, BlockView>, lock: Script, status: CellStatus, num: U64, max: U64)
    requires num < max && num in blocks
    ensures DirtyBetween(blocks, lock, status, num, max) <==>
            AnyUnknown(EntriesAt(blocks, num), lock, status) || DirtyBetween(blocks, lock, status, num + 1, max)
  {
    if DirtyBetween(blocks, lock, status, num, max) {
      var g: U64 :| num <= g < max && g in blocks && AnyUnknown(EntriesAt(blocks, g), lock, status);
      if g != num {
        assert DirtyBetween(blocks, lock, status, num + 1, max);
      }
    }
    if DirtyBetween(blocks, lock, status, num + 1, max) {
      var g: U64 :| num + 1 <= g < max && g in blocks && AnyUnknown(EntriesAt(blocks, g), lock, status);
      assert DirtyBetween(blocks, lock, status, num, max);
    }
  }

  /** A scan that finds nothing over a non-empty range ends with `max - 1`
      under the dirty cursor when `has_dirty` came in set or some scanned
      height had an output of the lock without a status, and under the
      checked cursor otherwise. */
  lemma {:induction false} ScanRecordsLastHeight(blocks: map<U64, BlockView>, lock: Script, lockHash: Hash, status: CellStatus,
                                                 kv: Store, num: U64, max: U64, hasDirty: bool)
    requires num < max
    requires ScanFrom(blocks, lock, lockHash, status, kv, num, max, hasDirty).result.NotFound?
    ensures var kv' := ScanFrom(blocks, lock, lockHash, status, kv, num, max, hasDirty).kv;
            var flag := CursorFlag(hasDirty || DirtyBetween(blocks, lock, status, num, max));
            CursorKey(flag, lockHash) in kv' && kv'[CursorKey(flag, lockHash)] == ToLeBytes(max - 1)
    decreases max - num
  {
    var es := EntriesAt(blocks, num);
    var dirty := hasDirty || AnyUnknown(es, lock, status);
    var kv1 := InsertNumber(kv, CursorFlag(dirty), lockHash, num);
    DirtyBetweenStep(blocks, lock, status, num, max);
    if num + 1 < max {
      ScanRecordsLastHeight(blocks, lock, lockHash, status, kv1, num + 1, max, dirty);
    } else {
      assert !DirtyBetween(blocks, lock, status, num + 1, max);
      assert CursorKey(CursorFlag(dirty), lockHash) in kv1;
    }
  }

  /** A scan that comes in clean and meets no output of the lock without a
      status never writes the dirty cursor. */
  lemma {:induction false} CleanScanKeepsDirty(blocks: map<U64, BlockView>, lock: Script, lockHash: Hash, status: CellStatus,
                                               kv: Store, num: U64, max: U64)
    requires !DirtyBetween(blocks, lock, status, num, max)
    ensures var kv' := ScanFrom(blocks, lock, lockHash, status, kv, num, max, false).kv;
            var dk := CursorKey(FLAG_DIRTY, lockHash);
            (dk in kv' <==> dk in kv) && (dk in kv ==> kv'[dk] == kv[dk])
    decreases max - num
  {
    if num < max && num in blocks {
      var es := EntriesAt(blocks, num);
      if FirstTakeable(es, lock, status).None? {
        DirtyBetweenStep(blocks, lock, status, num, max);
        CursorKeyInjective(FLAG_DIRTY, lockHash, FLAG_CHECKED, lockHash);
        CleanScanKeepsDirty(blocks, lock, lockHash, status, InsertNumber(kv, FLAG_CHECKED, lockHash, num), num + 1, max);
      }
    }
  }

  // ---------------------------------------------------------------------------
  // The stores

  /** The wallet's view of storage: the raw key-value store holding the
      cursors, the stored blocks, the highest block number and the cell statuses. */
  class WalletStore {
    var kv: Store
    var blocks: map<U64, BlockView>
    var maxNumber: Option<U64>
    var cellStatus: CellStatus

    constructor (kv0: Store, blocks0: map<U64, BlockView>, maxNumber0: Option<U64>, status0: CellStatus)
      ensures kv == kv0 && blocks == blocks0 && maxNumber == maxNumber0 && cellStatus == status0
    {
      kv, blocks, maxNumber, cellStatus := kv0, blocks0, maxNumber0, status0;
    }

    method InsertNumberInto(flag: Byte, key: seq<Byte>, number: U64)
      modifies this
      ensures kv == InsertNumber(old(kv), flag, key, number)
      ensures blocks == old(blocks) && maxNumber == old(maxNumber) && cellStatus == old(cellStatus)
    {
      kv := kv[CursorKey(flag, key) := ToLeBytes(number)];
    }

    /** `take_a_cell(lock_script)`; `lockHash` is the hash of `lock`. */
    method TakeACell(lock: Script, lockHash: Hash) returns (r: TakeResult)
      requires CursorWellFormed(kv, FLAG_CHECKED, lockHash)
      modifies this
      ensures Scan(r, kv, cellStatus) == Take(old(kv), old(blocks), old(maxNumber), old(cellStatus), lock, lockHash)
      ensures blocks == old(blocks) && maxNumber == old(maxNumber)
    {
      if maxNumber.None? {
        return NotFound;
      }
      var maxN := maxNumber.value;
      var dirtyNumber := SelectNumber(kv, FLAG_CHECKED, lockHash).GetOr(0);
      var checkedNumber := SelectNumber(kv, FLAG_CHECKED, lockHash).GetOr(0);
      var minNumber, hasDirty;
      if dirtyNumber > checkedNumber {
        minNumber, hasDirty := dirtyNumber, true;
      } else {
        minNumber, hasDirty := checkedNumber, false;
      }
      ghost var goal := Take(kv, blocks, maxNumber, cellStatus, lock, lockHash);
      var num := minNumber;
      while num < maxN
        invariant minNumber <= num && (minNumber <= maxN ==> num <= maxN)
        invariant blocks == old(blocks) && maxNumber == old(maxNumber) && cellStatus == old(cellStatus)
        invariant goal == ScanFrom(blocks, lock, lockHash, cellStatus, kv, num, maxN, hasDirty)
        decreases maxN as int - num
      {
        if num !in blocks {
          return MissingBlock(num);
        }
        var found, dirty := ScanHeight(num, lock, hasDirty);
        if found.Some? {
          var e := found.value;
          cellStatus := cellStatus[StatusKey(e) := false];
          return Found(e.txHash, e.index, e.output);
        }
        hasDirty := dirty;
        InsertNumberInto(CursorFlag(hasDirty), lockHash, num);
        num := num + 1;
      }
      return NotFound;
    }

    /** The transaction and output loops over one stored height: the first
        takeable output, or none and the updated dirty flag. */
    method ScanHeight(num: U64, lock: Script, hasDirty: bool) returns (found: Option<Entry>, dirty: bool)
      requires num in blocks
      ensures found == FirstTakeable(EntriesAt(blocks, num), lock, cellStatus)
      ensures found.None? ==> dirty == (hasDirty || AnyUnknown(EntriesAt(blocks, num), lock, cellStatus))
    {
      var txs := blocks[num].transactions;
      dirty := hasDirty;
      ghost var seen: seq<Entry> := [];
      var j := 0;
      while j < |txs|
        invariant 0 <= j <= |txs|
        invariant seen == Flatten(txs[..j])
        invariant forall i | 0 <= i < |seen| :: !Takeable(seen[i], lock, cellStatus)
        invariant dirty == (hasDirty || AnyUnknown(seen, lock, cellStatus))
      {
        var tx := txs[j];
        var k := 0;
        while k < |tx.outputs|
          invariant 0 <= k <= |tx.outputs|
          invariant seen == Flatten(txs[..j]) + TxEntries(tx)[..k]
          invariant forall i | 0 <= i < |seen| :: !Takeable(seen[i], lock, cellStatus)
          invariant dirty == (hasDirty || AnyUnknown(seen, lock, cellStatus))
        {
          var e := Entry(tx.hash, k, tx.outputs[k]);
          assert TxEntries(tx)[..k + 1] == TxEntries(tx)[..k] + [e];
          if e.output.lock == lock {
            var key := StatusKey(e);
            if key in cellStatus {
              if cellStatus[key] {
                FlattenAt(txs, j, k);
                FlattenPrefixAt(txs, j, k);
                FirstTakeableAfter(EntriesAt(blocks, num), seen, e, lock, cellStatus);
                return Some(e), dirty;
              }
            } else {
              dirty := true;
            }
          }
          AnyUnknownAppend(seen, e, lock, cellStatus);
          seen := seen + [e];
          k := k + 1;
        }
        assert TxEntries(tx)[..k] == TxEntries(tx);
        assert txs[..j + 1][..j] == txs[..j];
        j := j + 1;
      }
      assert txs[..j] == txs;
      found := None;
    }
  }

  lemma AnyUnknownAppend(seen: seq<Entry>, e: Entry, lock: Script, status: CellStatus)
    ensures AnyUnknown(seen + [e], lock, status) == (AnyUnknown(seen, lock, status) || Unknown(e, lock, status))
  {
    var s := seen + [e];
    if AnyUnknown(s, lock, status) && !Unknown(e, lock, status) {
      var i :| 0 <= i < |s| && Unknown(s[i], lock, status);
      assert i < |seen| && s[i] == seen[i];
    }
    if AnyUnknown(seen, lock, status) {
      var i :| 0 <= i < |seen| && Unknown(seen[i], lock, status);
      assert s[i] == seen[i];
    }
    assert s[|seen|] == e;
  }

  /** If the entries before position `|seen|` hold nothing takeable and the
      entry there is takeable, it is the first takeable one. */
  lemma FirstTakeableAfter(es: seq<Entry>, seen: seq<Entry>, e: Entry, lock: Script, status: CellStatus)
    requires |seen| < |es| && es[|seen|] == e && es[..|seen|] == seen
    requires forall i | 0 <= i < |seen| :: !Takeable(seen[i], lock, status)
    requires Takeable(e, lock, status)
    ensures FirstTakeable(es, lock, status) == Some(e)
  {
    var i := FirstTakeableIsFirst(es, lock, status);
    forall j | 0 <= j < |seen| ensures !Takeable(es[j], lock, status) {
      assert es[j] == seen[j];
    }
    assert Takeable(es[|seen|], lock, status);
  }
}
