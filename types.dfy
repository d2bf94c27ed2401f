/** Value types shared by every component: fixed-width integers, hashes,
    scripts and the transaction shapes the harness builds. */
module Types {

  const U64_MAX: int := 0xFFFF_FFFF_FFFF_FFFF
  const U64_MODULUS: int := 0x1_0000_0000_0000_0000
  const U32_MODULUS: int := 0x1_0000_0000

  type U64 = x: int | 0 <= x <= U64_MAX
  type U32 = x: int | 0 <= x < U32_MODULUS
  type Byte = x: int | 0 <= x < 256

  /** A 256-bit hash, kept opaque: only equality is ever used. */
  type Hash = seq<Byte>

  datatype Option<T> = None | Some(value: T) {
    function GetOr(default: T): T {
      if Some? then value else default
    }
  }

  /** Errors surfaced by the core; `Custom` carries the message of `Error::custom`. */
  datatype Error = Custom(message: string) | Remote(message: string)

  datatype Result<T> = Ok(value: T) | Err(error: Error)

  /** The `as u32` cast of a non-negative index: keeps the low 32 bits. */
  function AsU32(i: nat): (r: U32)
    ensures i < U32_MODULUS ==> r == i
  {
    i % U32_MODULUS
  }

  /** A lock or type script: code hash plus arguments. */
  datatype Script = Script(args: seq<seq<Byte>>, codeHash: Hash)

  /** core::transaction::OutPoint: the output `index` of transaction `txHash`. */
  datatype OutPoint = OutPoint(txHash: Hash, index: U32)

  datatype CellInput = CellInput(previousOutput: OutPoint, args: seq<seq<Byte>>, since: U64)

  datatype CellOutput = CellOutput(capacity: U64, data: seq<Byte>, lock: Script, typeScript: Option<Script>)

  type Witness = seq<seq<Byte>>

  datatype Transaction = Transaction(
    version: U32,
    deps: seq<OutPoint>,
    inputs: seq<CellInput>,
    outputs: seq<CellOutput>,
    witnesses: seq<Witness>)

  function Sum(xs: seq<nat>): nat
  {
    if xs == [] then 0 else Sum(xs[..|xs| - 1]) + xs[|xs| - 1]
  }

  lemma {:induction false} SumAppend(xs: seq<nat>, ys: seq<nat>)
    ensures Sum(xs + ys) == Sum(xs) + Sum(ys)
    decreases |ys|
  {
    if ys == [] {
      assert xs + ys == xs;
    } else {
      var ys' := ys[..|ys| - 1];
      assert (xs + ys)[..|xs + ys| - 1] == xs + ys';
      SumAppend(xs, ys');
    }
  }

  /** The total capacity of a list of outputs. */
  function Capacities(outs: seq<CellOutput>): (r: seq<nat>)
    ensures |r| == |outs| && forall i | 0 <= i < |outs| :: r[i] == outs[i].capacity
  {
    seq(|outs|, i requires 0 <= i < |outs| => outs[i].capacity)
  }
}
