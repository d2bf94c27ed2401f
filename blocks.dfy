/** Blocks as the node's JSON interface presents them, and the flattening of
    a block's transactions into one list of outputs, each tagged with the hash
    of its transaction and its position in that transaction's outputs. */
module Blocks {
  import opened Types

  /** A JSON cell output: the capacity is decimal text until it is parsed. */
  datatype OutputView = OutputView(capacity: string, data: seq<Byte>, lock: Script, typeScript: Option<Script>)

  datatype TransactionView = TransactionView(hash: Hash, outputs: seq<OutputView>)

  /** Only the header's timestamp (decimal text) and the transactions are used. */
  datatype BlockView = BlockView(timestamp: string, transactions: seq<TransactionView>)

  /** An output together with where it is: `(tx.hash, index, output)`. */
  datatype Entry = Entry(txHash: Hash, index: nat, output: OutputView)

  /** `outputs.iter().enumerate()` tagged with the transaction's hash. */
  function TxEntries(tx: TransactionView): (es: seq<Entry>)
    ensures |es| == |tx.outputs|
    ensures forall i | 0 <= i < |es| :: es[i] == Entry(tx.hash, i, tx.outputs[i])
  {
    seq(|tx.outputs|, i requires 0 <= i < |tx.outputs| => Entry(tx.hash, i, tx.outputs[i]))
  }

  /** The per-transaction lists concatenated in transaction order. */
  function Flatten(txs: seq<TransactionView>): seq<Entry>
    decreases |txs|
  {
    if txs == [] then [] else Flatten(txs[..|txs| - 1]) + TxEntries(txs[|txs| - 1])
  }

  /** The total number of outputs of a list of transactions. */
  function OutputCount(txs: seq<TransactionView>): nat
    decreases |txs|
  {
    if txs == [] then 0 else OutputCount(txs[..|txs| - 1]) + |txs[|txs| - 1].outputs|
  }

  lemma {:induction false} FlattenLength(txs: seq<TransactionView>)
    ensures |Flatten(txs)| == OutputCount(txs)
    decreases |txs|
  {
    if txs != [] {
      FlattenLength(txs[..|txs| - 1]);
    }
  }

  /** Flattening distributes over splitting the transaction list. */
  lemma {:induction false} FlattenSplit(txs: seq<TransactionView>, j: nat)
    requires j <= |txs|
    ensures Flatten(txs) == Flatten(txs[..j]) + Flatten(txs[j..])
    decreases |txs|
  {
    if j == |txs| {
      assert txs[..j] == txs && txs[j..] == [];
    } else {
      var init := txs[..|txs| - 1];
      FlattenSplit(init, j);
      assert init[..j] == txs[..j];
      assert txs[j..][..|txs[j..]| - 1] == init[j..];
    }
  }

  /** The list of a transaction with others after it starts with its own outputs. */
  lemma FlattenCons(txs: seq<TransactionView>)
    requires txs != []
    ensures Flatten(txs) == TxEntries(txs[0]) + Flatten(txs[1..])
  {
    FlattenSplit(txs, 1);
    assert txs[..1][..0] == [];
  }

  /** Output `k` of transaction `j` sits right after all outputs of the
      transactions before `j`, tagged with transaction `j`'s hash and `k`. */
  lemma FlattenAt(txs: seq<TransactionView>, j: nat, k: nat)
    requires j < |txs| && k < |txs[j].outputs|
    ensures |Flatten(txs[..j])| + k < |Flatten(txs)|
    ensures Flatten(txs)[|Flatten(txs[..j])| + k] == Entry(txs[j].hash, k, txs[j].outputs[k])
  {
    FlattenSplit(txs, j);
    FlattenCons(txs[j..]);
  }

  /** The entries before output `k` of transaction `j`. */
  lemma FlattenPrefixAt(txs: seq<TransactionView>, j: nat, k: nat)
    requires j < |txs| && k <= |txs[j].outputs|
    ensures |Flatten(txs[..j])| + k <= |Flatten(txs)|
    ensures Flatten(txs)[..|Flatten(txs[..j])| + k] == Flatten(txs[..j]) + TxEntries(txs[j])[..k]
  {
    FlattenSplit(txs, j);
    FlattenCons(txs[j..]);
  }

  /** Every entry of the list is some transaction's output at its own position. */
  lemma {:induction false} FlattenEntries(txs: seq<TransactionView>, p: nat)
    requires p < |Flatten(txs)|
    ensures exists j | 0 <= j < |txs| ::
              Flatten(txs)[p].txHash == txs[j].hash &&
              Flatten(txs)[p].index < |txs[j].outputs| &&
              Flatten(txs)[p].output == txs[j].outputs[Flatten(txs)[p].index]
    decreases |txs|
  {
    var init := txs[..|txs| - 1];
    var last := |txs| - 1;
    if p < |Flatten(init)| {
      FlattenEntries(init, p);
      var j :| 0 <= j < |init| &&
               Flatten(init)[p].txHash == init[j].hash &&
               Flatten(init)[p].index < |init[j].outputs| &&
               Flatten(init)[p].output == init[j].outputs[Flatten(init)[p].index];
      assert init[j] == txs[j];
    } else {
      assert Flatten(txs)[p] == TxEntries(txs[last])[p - |Flatten(init)|];
    }
  }
}
