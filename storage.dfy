/** The ledger: six SQLite tables behind one connection. Each table is a map
    from its primary key to the rest of its row; SQLite INTEGER columns hold
    64-bit signed values, so every u64 crosses the boundary through `as i64`
    on the way in and `as u64` on the way out. */
module Storage {
  import opened Types

  const I64_MIN: int := -0x8000_0000_0000_0000
  const I64_MAX: int := 0x7FFF_FFFF_FFFF_FFFF

  type I64 = x: int | I64_MIN <= x <= I64_MAX

  /** `n as i64`: the same 64 bits read as two's complement. */
  function AsI64(n: U64): (x: I64)
    ensures n <= I64_MAX ==> x == n
    ensures n > I64_MAX ==> x < 0
  {
    if n <= I64_MAX then n else n - U64_MODULUS
  }

  /** `x as u64` of a signed value: keeps the low 64 bits. */
  function AsU64(x: int): U64
  {
    x % U64_MODULUS
  }

  lemma CastRoundTrip(n: U64)
    ensures AsU64(AsI64(n)) == n
  {
  }

  lemma AsI64Injective(a: U64, b: U64)
    ensures AsI64(a) == AsI64(b) ==> a == b
  {
  }

  lemma MaxExists(s: set<int>)
    requires s != {}
    ensures exists m :: m in s && forall x | x in s :: x <= m
  {
    if forall x :: x !in s { assert false; }
    var y :| y in s;
    if s != {y} {
      MaxExists(s - {y});
      var m :| m in s - {y} && forall x | x in s - {y} :: x <= m;
      var top := if y > m then y else m;
      forall x | x in s ensures x <= top {
        if x != y { assert x in s - {y}; }
      }
    } else {
      assert forall x | x in s :: x <= y;
    }
  }

  function MaxOf(s: set<int>): (m: int)
    requires s != {}
    ensures m in s && forall x | x in s :: x <= m
  {
    MaxExists(s);
    var m :| m in s && (forall x | x in s :: x <= m); m
  }

  function MinOf(s: set<int>): (m: int)
    requires s != {}
    ensures m in s && forall x | x in s :: m <= x
  {
    var neg := set x | x in s :: -x;
    assert neg != {} by {
      if forall x :: x !in s { assert false; }
      var y :| y in s;
      assert -y in neg;
    }
    var top := MaxOf(neg);
    assert forall x | x in s :: -x in neg;
    -top
  }

  /** SQL `ifnull(max(..), 0)` and `ifnull(min(..), 0)` over a column. */
  function MaxOr0(s: set<int>): int { if s == {} then 0 else MaxOf(s) }
  function MinOr0(s: set<int>): int { if s == {} then 0 else MinOf(s) }

  /** SQL `sum(..)` over the rows of a result, keyed by their primary key. */
  ghost function SumValues<K>(m: map<K, int>): int
    decreases |m|
  {
    if m == map[] then 0
    else
      assert exists k :: k in m by { if forall k :: k !in m { assert false; } }
      var k :| k in m;
      m[k] + SumValues(m - {k})
  }

  /** The `wallet_status` keys the workers use. */
  const TIP: string := "tip"
  const TURN: string := "turn"
  const STOLEN: string := "stolen"

  type CellKey = (Hash, U32)

  /** A `transactions` row without its key: the hash of the transaction that
      spent the cell and the `tip` cursor at the time it was recorded. */
  datatype Submission = Submission(hash: Hash, number: I64)

  datatype Tables = Tables(
    walletStatus: map<string, I64>,         // key -> number
    chainStatus: map<I64, I64>,             // number -> timestamp
    chainTransactions: map<Hash, I64>,      // hash -> number
    chainCells: map<CellKey, I64>,          // (tx_hash, index_) -> capacity
    stolenTransactions: map<Hash, I64>,     // hash -> number
    transactions: map<CellKey, Submission>) // (tx_hash, index_) -> (hash, number)

  const EMPTY: Tables := Tables(map[], map[], map[], map[], map[], map[])

  // ---------------------------------------------------------------------------
  // INSERT OR REPLACE / INSERT OR IGNORE

  /** One `INSERT OR IGNORE`: an existing key keeps its row. */
  function InsertOrIgnore<K, V>(m: map<K, V>, k: K, v: V): map<K, V>
  {
    if k in m then m else m[k := v]
  }

  /** A statement executed once per row, in order. */
  function InsertOrIgnoreAll<K, V>(m: map<K, V>, rows: seq<(K, V)>): map<K, V>
    decreases |rows|
  {
    if rows == [] then m
    else
      var last := rows[|rows| - 1];
      InsertOrIgnore(InsertOrIgnoreAll(m, rows[..|rows| - 1]), last.0, last.1)
  }

  /** The keys a batch carries. */
  function RowKeys<K, V>(rows: seq<(K, V)>): set<K>
    decreases |rows|
  {
    if rows == [] then {} else RowKeys(rows[..|rows| - 1]) + {rows[|rows| - 1].0}
  }

  /** Existing rows keep their values; the key set grows by exactly the new keys. */
  lemma {:induction false} InsertOrIgnoreAllKeeps<K, V>(m: map<K, V>, rows: seq<(K, V)>)
    ensures InsertOrIgnoreAll(m, rows).Keys == m.Keys + RowKeys(rows)
    ensures forall k | k in m :: InsertOrIgnoreAll(m, rows)[k] == m[k]
    decreases |rows|
  {
    if rows != [] {
      InsertOrIgnoreAllKeeps(m, rows[..|rows| - 1]);
    }
  }

  lemma {:induction false} InsertOrIgnoreAllAbsent<K, V>(m: map<K, V>, rows: seq<(K, V)>, k: K)
    requires k !in m && forall i | 0 <= i < |rows| :: rows[i].0 != k
    ensures k !in InsertOrIgnoreAll(m, rows)
    decreases |rows|
  {
    if rows != [] {
      var init := rows[..|rows| - 1];
      assert forall i | 0 <= i < |init| :: init[i] == rows[i];
      InsertOrIgnoreAllAbsent(m, init, k);
    }
  }

  /** A new key takes the value of the first row that carries it. */
  lemma {:induction false} InsertOrIgnoreAllFirstWins<K, V>(m: map<K, V>, rows: seq<(K, V)>, j: nat)
    requires j < |rows| && rows[j].0 !in m
    requires forall i | 0 <= i < j :: rows[i].0 != rows[j].0
    ensures rows[j].0 in InsertOrIgnoreAll(m, rows)
    ensures InsertOrIgnoreAll(m, rows)[rows[j].0] == rows[j].1
    decreases |rows|
  {
    var init := rows[..|rows| - 1];
    assert forall i | 0 <= i < |init| :: init[i] == rows[i];
    if j == |rows| - 1 {
      InsertOrIgnoreAllAbsent(m, init, rows[j].0);
    } else {
      InsertOrIgnoreAllFirstWins(m, init, j);
      InsertOrIgnoreAllKeeps(InsertOrIgnoreAll(m, init), [rows[|rows| - 1]]);
    }
  }

  lemma {:induction false} InsertOrIgnoreAllPresent<K, V>(m: map<K, V>, rows: seq<(K, V)>)
    requires RowKeys(rows) <= m.Keys
    ensures InsertOrIgnoreAll(m, rows) == m
    decreases |rows|
  {
    if rows != [] {
      InsertOrIgnoreAllPresent(m, rows[..|rows| - 1]);
    }
  }

  /** Replaying the same batch changes nothing. */
  lemma InsertOrIgnoreAllIdempotent<K, V>(m: map<K, V>, rows: seq<(K, V)>)
    ensures InsertOrIgnoreAll(InsertOrIgnoreAll(m, rows), rows) == InsertOrIgnoreAll(m, rows)
  {
    InsertOrIgnoreAllKeeps(m, rows);
    InsertOrIgnoreAllPresent(InsertOrIgnoreAll(m, rows), rows);
  }

  // ---------------------------------------------------------------------------
  // What each statement does to the tables

  /** `update_wallet_status`: INSERT OR REPLACE of (key, number as i64). */
  function WalletStatusUpdated(t: Tables, key: string, number: U64): Tables
  {
    t.(walletStatus := t.walletStatus[key := AsI64(number)])
  }

  /** `update_chain_status`: INSERT OR REPLACE of (number, timestamp). */
  function ChainStatusUpdated(t: Tables, number: U64, timestamp: U64): Tables
  {
    t.(chainStatus := t.chainStatus[AsI64(number) := AsI64(timestamp)])
  }

  function HashRows(txs: seq<Hash>, number: I64): (rows: seq<(Hash, I64)>)
    ensures |rows| == |txs| && forall i | 0 <= i < |txs| :: rows[i] == (txs[i], number)
  {
    seq(|txs|, i requires 0 <= i < |txs| => (txs[i], number))
  }

  function CellRows(cells: seq<(Hash, U32, U64)>): (rows: seq<(CellKey, I64)>)
    ensures |rows| == |cells|
    ensures forall i | 0 <= i < |cells| :: rows[i] == ((cells[i].0, cells[i].1), AsI64(cells[i].2))
  {
    seq(|cells|, i requires 0 <= i < |cells| => ((cells[i].0, cells[i].1), AsI64(cells[i].2)))
  }

  /** `save_chain_transactions`: INSERT OR IGNORE of (hash, number) per hash. */
  function ChainTransactionsSaved(t: Tables, number: U64, txs: seq<Hash>): Tables
  {
    t.(chainTransactions := InsertOrIgnoreAll(t.chainTransactions, HashRows(txs, AsI64(number))))
  }

  /** `save_chain_cells`: INSERT OR IGNORE of (tx_hash, index_, capacity) per cell. */
  function ChainCellsSaved(t: Tables, cells: seq<(Hash, U32, U64)>): Tables
  {
    t.(chainCells := InsertOrIgnoreAll(t.chainCells, CellRows(cells)))
  }

  /** `save_stolen_transaction`: INSERT OR IGNORE of (hash, number). */
  function StolenTransactionSaved(t: Tables, number: U64, txHash: Hash): Tables
  {
    t.(stolenTransactions := InsertOrIgnore(t.stolenTransactions, txHash, AsI64(number)))
  }

  /** `save_transaction`: INSERT OR IGNORE ... SELECT over the `tip` row, so
      nothing is inserted while there is no `tip` cursor. */
  function TransactionSaved(t: Tables, txHash: Hash, index: U32, hash: Hash): Tables
  {
    if TIP !in t.walletStatus then t
    else t.(transactions := InsertOrIgnore(t.transactions, (txHash, index), Submission(hash, t.walletStatus[TIP])))
  }

  // ---------------------------------------------------------------------------
  // Queries

  /** `select_wallet_status`: `ifnull(max(number), 0)` over the (at most one) row of `key`. */
  function SelectWalletStatus(t: Tables, key: string): (r: U64)
    ensures key !in t.walletStatus ==> r == 0
    ensures key in t.walletStatus ==> AsI64(r) == t.walletStatus[key]
  {
    if key in t.walletStatus then AsU64(t.walletStatus[key]) else 0
  }

  /** Every recorded block height fits in 63 bits, as real heights do. */
  ghost predicate HeightsInRange(t: Tables)
  {
    forall h | h in t.chainStatus :: h >= 0
  }

  /** `select_chain_number`: `max(number)` over `chain_status`, NULL when it is empty. */
  function SelectChainNumber(t: Tables): (r: Option<U64>)
    ensures r.None? <==> t.chainStatus == map[]
    ensures r.Some? ==> AsI64(r.value) in t.chainStatus
    ensures r.Some? && HeightsInRange(t) ==> forall h | h in t.chainStatus :: h <= r.value
  {
    if t.chainStatus == map[] then None
    else
      var top := MaxOf(t.chainStatus.Keys);
      assert AsI64(AsU64(top)) == top;
      Some(AsU64(top))
  }

  /** The anti-join: harvested cells (of a stolen transaction) that no
      `transactions` row has spent. */
  function UnspentCells(t: Tables): (r: set<CellKey>)
    ensures r <= t.chainCells.Keys
    ensures forall k | k in r :: k.0 in t.stolenTransactions && k !in t.transactions
    ensures forall k | k in t.chainCells && k.0 in t.stolenTransactions && k !in t.transactions :: k in r
  {
    set k | k in t.chainCells && k.0 in t.stolenTransactions && k !in t.transactions
  }

  /** `count_unspent_cells`. */
  function CountUnspentCells(t: Tables): (n: nat)
    ensures n <= |t.chainCells|
  {
    CardinalitySubset(UnspentCells(t), t.chainCells.Keys);
    |UnspentCells(t)|
  }

  /** A fetched row: a cell of `keys`, spent with `since = 0` and no
      arguments, paired with its recorded capacity read back `as u64`. */
  predicate FetchedRow(t: Tables, keys: set<CellKey>, row: (CellInput, U64))
  {
    var op := row.0.previousOutput;
    var k := (op.txHash, op.index);
    && k in keys && k in t.chainCells
    && row.0 == CellInput(op, [], 0)
    && row.1 == AsU64(t.chainCells[k])
  }

  /** The row loop of `fetch_unspent_cells` over the cells `keys` the query
      selects: up to `limit` distinct cells of `keys`, each as an input with
      `since = 0` and no arguments, with its recorded capacity `as u64`. */
  method FetchRows(t: Tables, keys: set<CellKey>, limit: U32) returns (rows: seq<(CellInput, U64)>)
    requires keys <= t.chainCells.Keys
    ensures |rows| == if limit <= |keys| then limit else |keys|
    ensures forall i | 0 <= i < |rows| :: FetchedRow(t, keys, rows[i])
    ensures forall i, j | 0 <= i < j < |rows| :: rows[i].0.previousOutput != rows[j].0.previousOutput
  {
    var remaining := keys;
    ghost var taken: set<CellKey> := {};
    rows := [];
    while |rows| < limit && remaining != {}
      invariant remaining <= keys && taken !! remaining && keys == taken + remaining
      invariant |rows| == |taken| <= limit
      invariant forall i | 0 <= i < |rows| :: FetchedRow(t, taken, rows[i])
      invariant forall i, j | 0 <= i < j < |rows| :: rows[i].0.previousOutput != rows[j].0.previousOutput
      decreases remaining
    {
      if forall k :: k !in remaining { assert false; }
      var k :| k in remaining;
      var row := (CellInput(OutPoint(k.0, k.1), [], 0), AsU64(t.chainCells[k]));
      FetchStep(t, taken, rows, k);
      rows := rows + [row];
      remaining := remaining - {k};
      taken := taken + {k};
    }
    FetchDone(t, taken, keys, rows);
  }

  /** Appending the row of a cell not yet taken keeps the fetched rows
      well formed and their out points distinct. */
  lemma FetchStep(t: Tables, taken: set<CellKey>, rows: seq<(CellInput, U64)>, k: CellKey)
    requires k !in taken && k in t.chainCells
    requires forall i | 0 <= i < |rows| :: FetchedRow(t, taken, rows[i])
    requires forall i, j | 0 <= i < j < |rows| :: rows[i].0.previousOutput != rows[j].0.previousOutput
    ensures |taken + {k}| == |taken| + 1
    ensures var rows' := rows + [(CellInput(OutPoint(k.0, k.1), [], 0), AsU64(t.chainCells[k]))];
            (forall i | 0 <= i < |rows'| :: FetchedRow(t, taken + {k}, rows'[i])) &&
            forall i, j | 0 <= i < j < |rows'| :: rows'[i].0.previousOutput != rows'[j].0.previousOutput
  {
    var row := (CellInput(OutPoint(k.0, k.1), [], 0), AsU64(t.chainCells[k]));
    forall i | 0 <= i < |rows| ensures rows[i].0.previousOutput != row.0.previousOutput {
      assert FetchedRow(t, taken, rows[i]);
    }
    assert FetchedRow(t, taken + {k}, row);
    forall i | 0 <= i < |rows| ensures FetchedRow(t, taken + {k}, rows[i]) {
      FetchedRowWiden(t, taken, taken + {k}, rows[i]);
    }
  }

  /** The rows fetched from a subset of `keys` are rows of `keys`, no more than there are keys. */
  lemma FetchDone(t: Tables, taken: set<CellKey>, keys: set<CellKey>, rows: seq<(CellInput, U64)>)
    requires taken <= keys
    requires forall i | 0 <= i < |rows| :: FetchedRow(t, taken, rows[i])
    ensures |taken| <= |keys|
    ensures forall i | 0 <= i < |rows| :: FetchedRow(t, keys, rows[i])
  {
    CardinalitySubset(taken, keys);
    forall i | 0 <= i < |rows| ensures FetchedRow(t, keys, rows[i]) {
      FetchedRowWiden(t, taken, keys, rows[i]);
    }
  }

  lemma FetchedRowWiden(t: Tables, keys: set<CellKey>, wider: set<CellKey>, row: (CellInput, U64))
    requires keys <= wider && FetchedRow(t, keys, row)
    ensures FetchedRow(t, wider, row)
  {
  }

  /** Submissions whose resulting hash is a transaction on chain. */
  function Committed(t: Tables): set<CellKey>
  {
    set k | k in t.transactions && t.transactions[k].hash in t.chainTransactions
  }

  datatype TransactionCounts = TransactionCounts(sent: nat, passed: nat, committed: nat)

  /** `count_transactions`: `count(1), count(t.hash), count(ct.number)` over
      `transactions LEFT JOIN chain_transactions ON hash`; the join adds no
      rows because `chain_transactions.hash` is a primary key. */
  function CountTransactions(t: Tables): (r: TransactionCounts)
    ensures r.sent == r.passed == |t.transactions|
    ensures r.committed <= r.sent
  {
    var committed := Committed(t);
    assert committed <= t.transactions.Keys;
    CardinalitySubset(committed, t.transactions.Keys);
    TransactionCounts(|t.transactions|, |t.transactions.Keys|, |committed|)
  }

  lemma CardinalitySubset<T>(a: set<T>, b: set<T>)
    requires a <= b
    ensures |a| <= |b|
  {
    assert b == a + (b - a);
  }

  // ---------------------------------------------------------------------------
  // Statistics

  datatype Stats = Stats(count: nat, start: U64, end: U64, minLatency: U64, maxLatency: U64, sumLatency: U64)

  /** The rows `do_statistics(number)` aggregates: committed submissions
      stamped at a height `>= number` (compared as i64). */
  function StatRows(t: Tables, number: U64): set<CellKey>
  {
    set k | k in Committed(t) && t.transactions[k].number >= AsI64(number)
  }

  /** `cs1.timestamp`: the time of the submission's stamped height, where recorded. */
  function SubmitTimes(t: Tables, rows: set<CellKey>): map<CellKey, int>
    requires rows <= t.transactions.Keys
  {
    map k | k in rows && t.transactions[k].number in t.chainStatus :: t.chainStatus[t.transactions[k].number]
  }

  /** `cs2.timestamp`: the time of the block that holds the resulting transaction. */
  function CommitTimes(t: Tables, rows: set<CellKey>): map<CellKey, int>
    requires rows <= Committed(t)
  {
    map k | k in rows && t.chainTransactions[t.transactions[k].hash] in t.chainStatus
      :: t.chainStatus[t.chainTransactions[t.transactions[k].hash]]
  }

  /** `cs2.timestamp - cs1.timestamp`, defined only where both timestamps are. */
  function Latencies(t: Tables, rows: set<CellKey>): (lat: map<CellKey, int>)
    requires rows <= Committed(t)
    ensures lat.Keys <= rows
  {
    var s := SubmitTimes(t, rows);
    var c := CommitTimes(t, rows);
    map k | k in s && k in c :: c[k] - s[k]
  }

  /** `do_statistics(number)`: count, first submit time, last commit time and
      min/max/sum latency, each `ifnull(.., 0)` and returned `as u64`. */
  ghost function DoStatistics(t: Tables, number: U64): (s: Stats)
    ensures s.count == 0 ==> s == Stats(0, 0, 0, 0, 0, 0)
  {
    var rows := StatRows(t, number);
    var lat := Latencies(t, rows);
    AggregatesOfNoRows(t, rows);
    Stats(|rows|,
          AsU64(MinOr0(SubmitTimes(t, rows).Values)),
          AsU64(MaxOr0(CommitTimes(t, rows).Values)),
          AsU64(MinOr0(lat.Values)),
          AsU64(MaxOr0(lat.Values)),
          AsU64(SumValues(lat)))
  }

  /** No committed submission from `number` on: all six values are 0. */
  lemma StatisticsEmpty(t: Tables, number: U64)
    requires forall k | k in Committed(t) :: t.transactions[k].number < AsI64(number)
    ensures DoStatistics(t, number) == Stats(0, 0, 0, 0, 0, 0)
  {
    var rows := StatRows(t, number);
    StatRowsEmpty(t, number);
    AggregatesOfNoRows(t, rows);
    var lat := Latencies(t, rows);
    assert DoStatistics(t, number) ==
           Stats(|rows|, AsU64(MinOr0(SubmitTimes(t, rows).Values)), AsU64(MaxOr0(CommitTimes(t, rows).Values)),
                 AsU64(MinOr0(lat.Values)), AsU64(MaxOr0(lat.Values)), AsU64(SumValues(lat)));
  }

  lemma StatRowsEmpty(t: Tables, number: U64)
    requires forall k | k in Committed(t) :: t.transactions[k].number < AsI64(number)
    ensures StatRows(t, number) == {}
  {
  }

  /** Over no rows every aggregate is `ifnull(NULL, 0)`. */
  lemma AggregatesOfNoRows(t: Tables, rows: set<CellKey>)
    requires rows <= Committed(t)
    ensures rows == {} ==> MinOr0(SubmitTimes(t, rows).Values) == 0 && MaxOr0(CommitTimes(t, rows).Values) == 0
    ensures var lat := Latencies(t, rows);
            rows == {} ==> MinOr0(lat.Values) == 0 && MaxOr0(lat.Values) == 0 && SumValues(lat) == 0
  {
    if rows == {} {
      assert SubmitTimes(t, rows) == map[];
      assert CommitTimes(t, rows) == map[];
      assert Latencies(t, rows) == map[];
    }
  }

  /** The statistics never count more than the committed submissions. */
  lemma StatisticsCountBounded(t: Tables, number: U64)
    ensures DoStatistics(t, number).count <= CountTransactions(t).committed
  {
    CardinalitySubset(StatRows(t, number), Committed(t));
  }

  /** A later window start never counts more. */
  lemma StatisticsCountMonotone(t: Tables, n1: U64, n2: U64)
    requires n1 <= n2 <= I64_MAX
    ensures DoStatistics(t, n2).count <= DoStatistics(t, n1).count
  {
    CardinalitySubset(StatRows(t, n2), StatRows(t, n1));
  }

  lemma {:induction false} SumValuesBounds<K>(m: map<K, int>, lo: int, hi: int)
    requires forall k | k in m :: lo <= m[k] <= hi
    ensures |m| * lo <= SumValues(m) <= |m| * hi
    decreases |m|
  {
    if m != map[] {
      assert exists k :: k in m && SumValues(m) == m[k] + SumValues(m - {k}) by {
        if forall k :: k !in m { assert false; }
      }
      var k :| k in m && SumValues(m) == m[k] + SumValues(m - {k});
      var rest := m - {k};
      assert |rest| + 1 == |m|;
      SumValuesBounds(rest, lo, hi);
      MulStep(|rest|, lo);
      MulStep(|rest|, hi);
    }
  }

  lemma MulStep(n: nat, c: int)
    ensures (n + 1) * c == n * c + c
  {
  }

  lemma ValuesSumBounds<K>(m: map<K, int>)
    ensures MinOr0(m.Values) <= MaxOr0(m.Values)
    ensures |m| * MinOr0(m.Values) <= SumValues(m) <= |m| * MaxOr0(m.Values)
  {
    if m != map[] {
      if forall k :: k !in m { assert false; }
      var k :| k in m;
      assert m[k] in m.Values;
      forall j | j in m ensures MinOr0(m.Values) <= m[j] <= MaxOr0(m.Values) {
        assert m[j] in m.Values;
      }
      SumValuesBounds(m, MinOr0(m.Values), MaxOr0(m.Values));
    }
  }

  /** Before the `as u64` cast, the summed latency lies between count times
      the minimum and count times the maximum. */
  lemma LatencySumBounds(t: Tables, number: U64)
    ensures var lat := Latencies(t, StatRows(t, number));
            MinOr0(lat.Values) <= MaxOr0(lat.Values) &&
            |lat| * MinOr0(lat.Values) <= SumValues(lat) <= |lat| * MaxOr0(lat.Values)
  {
    ValuesSumBounds(Latencies(t, StatRows(t, number)));
  }

  // ---------------------------------------------------------------------------
  // Properties of the statements

  /** A written cursor reads back; other cursors are untouched. */
  lemma WalletStatusRoundTrip(t: Tables, key: string, number: U64, other: string)
    requires other != key
    ensures SelectWalletStatus(WalletStatusUpdated(t, key, number), key) == number
    ensures SelectWalletStatus(WalletStatusUpdated(t, key, number), other) == SelectWalletStatus(t, other)
  {
    CastRoundTrip(number);
  }

  /** Recording a block height moves `select_chain_number` to the larger of it and the old maximum. */
  lemma ChainNumberAfterUpdate(t: Tables, number: U64, timestamp: U64)
    requires HeightsInRange(t) && number <= I64_MAX
    ensures HeightsInRange(ChainStatusUpdated(t, number, timestamp))
    ensures SelectChainNumber(ChainStatusUpdated(t, number, timestamp)) ==
            Some(if t.chainStatus == map[] || SelectChainNumber(t).value < number then number
                 else SelectChainNumber(t).value)
  {
    var t' := ChainStatusUpdated(t, number, timestamp);
    var r := SelectChainNumber(t').value;
    assert AsI64(r) == r;
    if t.chainStatus != map[] {
      var old_ := SelectChainNumber(t).value;
      assert AsI64(old_) == old_;
      assert old_ in t'.chainStatus;
    }
    assert number in t'.chainStatus;
  }

  /** Replaying a block's facts leaves every table as it was. */
  lemma SaveChainFactsIdempotent(t: Tables, number: U64, txs: seq<Hash>, cells: seq<(Hash, U32, U64)>, hash: Hash)
    ensures ChainTransactionsSaved(ChainTransactionsSaved(t, number, txs), number, txs) == ChainTransactionsSaved(t, number, txs)
    ensures ChainCellsSaved(ChainCellsSaved(t, cells), cells) == ChainCellsSaved(t, cells)
    ensures StolenTransactionSaved(StolenTransactionSaved(t, number, hash), number, hash) == StolenTransactionSaved(t, number, hash)
  {
    InsertOrIgnoreAllIdempotent(t.chainTransactions, HashRows(txs, AsI64(number)));
    InsertOrIgnoreAllIdempotent(t.chainCells, CellRows(cells));
  }

  /** INSERT OR IGNORE never replaces: a cell already recorded keeps its first capacity. */
  lemma ChainCellsKeepFirstValue(t: Tables, cells: seq<(Hash, U32, U64)>, k: CellKey)
    requires k in t.chainCells
    ensures k in ChainCellsSaved(t, cells).chainCells
    ensures ChainCellsSaved(t, cells).chainCells[k] == t.chainCells[k]
  {
    InsertOrIgnoreAllKeeps(t.chainCells, CellRows(cells));
  }

  /** Recording a spend of an unspent cell removes exactly that cell from the
      unspent set (while a `tip` cursor exists); without one nothing happens. */
  lemma SubmissionRemovesUnspent(t: Tables, txHash: Hash, index: U32, hash: Hash)
    requires (txHash, index) in UnspentCells(t)
    ensures TIP in t.walletStatus ==>
              UnspentCells(TransactionSaved(t, txHash, index, hash)) == UnspentCells(t) - {(txHash, index)} &&
              CountUnspentCells(TransactionSaved(t, txHash, index, hash)) == CountUnspentCells(t) - 1
    ensures TIP !in t.walletStatus ==> TransactionSaved(t, txHash, index, hash) == t
  {
    if TIP in t.walletStatus {
      var t' := TransactionSaved(t, txHash, index, hash);
      assert UnspentCells(t') == UnspentCells(t) - {(txHash, index)};
    }
  }

  /** A recorded submission is stamped with the `tip` cursor and is never overwritten. */
  lemma SubmissionStampedWithTip(t: Tables, txHash: Hash, index: U32, hash: Hash)
    requires TIP in t.walletStatus
    ensures var t' := TransactionSaved(t, txHash, index, hash);
            (txHash, index) in t'.transactions &&
            ((txHash, index) in t.transactions ==> t' == t) &&
            ((txHash, index) !in t.transactions ==>
               AsU64(t'.transactions[(txHash, index)].number) == SelectWalletStatus(t, TIP) &&
               t'.transactions[(txHash, index)].hash == hash)
  {
  }

  // ---------------------------------------------------------------------------
  // The connection

  /** `Storage`: the tables behind the (serialised) connection. */
  class Ledger {
    var walletStatus: map<string, I64>
    var chainStatus: map<I64, I64>
    var chainTransactions: map<Hash, I64>
    var chainCells: map<CellKey, I64>
    var stolenTransactions: map<Hash, I64>
    var transactions: map<CellKey, Submission>

    function State(): Tables
      reads this
    {
      Tables(walletStatus, chainStatus, chainTransactions, chainCells, stolenTransactions, transactions)
    }

    /** `open` + `init` on a new file: every table exists and is empty. */
    constructor ()
      ensures State() == EMPTY
    {
      walletStatus, chainStatus, chainTransactions := map[], map[], map[];
      chainCells, stolenTransactions, transactions := map[], map[], map[];
    }

    method UpdateWalletStatus(key: string, number: U64)
      requires |key| < 16
      modifies this
      ensures State() == WalletStatusUpdated(old(State()), key, number)
    {
      walletStatus := walletStatus[key := AsI64(number)];
    }

    method UpdateTipStatus(number: U64)
      modifies this
      ensures State() == WalletStatusUpdated(old(State()), TIP, number)
    {
      UpdateWalletStatus(TIP, number);
    }

    method UpdateTurnStatus(number: U64)
      modifies this
      ensures State() == WalletStatusUpdated(old(State()), TURN, number)
    {
      UpdateWalletStatus(TURN, number);
    }

    method UpdateStolenStatus(number: U64)
      modifies this
      ensures State() == WalletStatusUpdated(old(State()), STOLEN, number)
    {
      UpdateWalletStatus(STOLEN, number);
    }

    method UpdateChainStatus(number: U64, timestamp: U64)
      modifies this
      ensures State() == ChainStatusUpdated(old(State()), number, timestamp)
    {
      chainStatus := chainStatus[AsI64(number) := AsI64(timestamp)];
    }

    method SaveChainTransactions(number: U64, txs: seq<Hash>)
      modifies this
      ensures State() == ChainTransactionsSaved(old(State()), number, txs)
    {
      ghost var rows := HashRows(txs, AsI64(number));
      var i := 0;
      while i < |txs|
        invariant 0 <= i <= |txs|
        invariant State() == old(State()).(chainTransactions := InsertOrIgnoreAll(old(chainTransactions), rows[..i]))
      {
        assert rows[..i + 1][..i] == rows[..i];
        if txs[i] !in chainTransactions {
          chainTransactions := chainTransactions[txs[i] := AsI64(number)];
        }
        i := i + 1;
      }
      assert rows[..|txs|] == rows;
    }

    method SaveChainCells(cells: seq<(Hash, U32, U64)>)
      modifies this
      ensures State() == ChainCellsSaved(old(State()), cells)
    {
      ghost var rows := CellRows(cells);
      var i := 0;
      while i < |cells|
        invariant 0 <= i <= |cells|
        invariant State() == old(State()).(chainCells := InsertOrIgnoreAll(old(chainCells), rows[..i]))
      {
        assert rows[..i + 1][..i] == rows[..i];
        var (txHash, index, capacity) := cells[i];
        if (txHash, index) !in chainCells {
          chainCells := chainCells[(txHash, index) := AsI64(capacity)];
        }
        i := i + 1;
      }
      assert rows[..|cells|] == rows;
    }

    method SaveStolenTransaction(number: U64, txHash: Hash)
      modifies this
      ensures State() == StolenTransactionSaved(old(State()), number, txHash)
    {
      if txHash !in stolenTransactions {
        stolenTransactions := stolenTransactions[txHash := AsI64(number)];
      }
    }

    method SaveTransaction(txHash: Hash, index: U32, hash: Hash)
      modifies this
      ensures State() == TransactionSaved(old(State()), txHash, index, hash)
    {
      if TIP in walletStatus && (txHash, index) !in transactions {
        transactions := transactions[(txHash, index) := Submission(hash, walletStatus[TIP])];
      }
    }

    /** `fetch_unspent_cells(limit)`: up to `limit` distinct unspent cells, each
        as an input with `since = 0` and no arguments, with its capacity. The
        order of the rows is the engine's and is left unspecified. */
    method FetchUnspentCells(limit: U32) returns (rows: seq<(CellInput, U64)>)
      ensures |rows| == if limit <= CountUnspentCells(State()) then limit else CountUnspentCells(State())
      ensures forall i | 0 <= i < |rows| :: FetchedRow(State(), UnspentCells(State()), rows[i])
      ensures forall i, j | 0 <= i < j < |rows| :: rows[i].0.previousOutput != rows[j].0.previousOutput
    {
      rows := FetchRows(State(), UnspentCells(State()), limit);
    }
  }
}
