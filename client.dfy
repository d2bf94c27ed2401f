/** Harvest consolidation: the live cells under the source lock become one
    transaction whose outputs are as many minimum-capacity cells under the
    destination lock as are allowed, plus one change cell back to the source. */
module Client {
  import opened Types
  import Decimal

  const PARSE_CAPACITY_FAILED: Error := Custom("parse capacity failed")
  const SUM_CAPACITY_OVERFLOW: Error := Custom("sum capacity overflow")

  /** `usize::MAX` (`!0`) on a 64-bit target: the harvester's `max_count`. */
  const USIZE_MAX: U64 := U64_MAX

  /** A live cell as the node reports it: where it is and its capacity as decimal text. */
  datatype LiveCell = LiveCell(outPoint: OutPoint, capacity: string)

  predicate AllParse(cells: seq<LiveCell>) {
    forall i | 0 <= i < |cells| :: Decimal.ParseU64(cells[i].capacity).Some?
  }

  function Parsed(cells: seq<LiveCell>): (caps: seq<U64>)
    requires AllParse(cells)
    ensures |caps| == |cells|
  {
    seq(|cells|, i requires 0 <= i < |cells| => Decimal.ParseU64(cells[i].capacity).value)
  }

  /** The exact (unbounded) total capacity of the cells. */
  function TotalCapacity(cells: seq<LiveCell>): nat
    requires AllParse(cells)
  {
    Sum(Parsed(cells))
  }

  /** `map(parse).collect::<Result<Vec<_>, _>>()`: every capacity parsed, or none. */
  function ParseCapacities(cells: seq<LiveCell>): (r: Option<seq<U64>>)
    ensures r.Some? <==> AllParse(cells)
    ensures r.Some? ==> r.value == Parsed(cells)
  {
    if cells == [] then Some([])
    else
      match Decimal.ParseU64(cells[0].capacity)
      case None => None
      case Some(c) =>
        match ParseCapacities(cells[1..])
        case None =>
          assert !Decimal.ParseU64(cells[1..][0].capacity).Some? || !AllParse(cells[1..]);
          None
        case Some(rest) =>
          ParsedCons(cells);
          Some([c] + rest)
  }

  lemma ParsedCons(cells: seq<LiveCell>)
    requires cells != [] && AllParse(cells)
    ensures AllParse(cells[1..])
    ensures Parsed(cells) == [Decimal.ParseU64(cells[0].capacity).value] + Parsed(cells[1..])
  {
    assert forall i | 0 <= i < |cells| - 1 :: cells[1..][i] == cells[i + 1];
  }

  lemma SumFront(xs: seq<nat>)
    requires xs != []
    ensures Sum(xs) == xs[0] + Sum(xs[1..])
  {
    assert xs == [xs[0]] + xs[1..];
    SumAppend([xs[0]], xs[1..]);
    assert [xs[0]][..0] == [];
  }

  /** `try_fold(acc, u64::checked_add)`: the sum, or None as soon as a partial sum overflows. */
  function CheckedSum(acc: U64, caps: seq<U64>): (r: Option<U64>)
    ensures r.Some? <==> acc + Sum(caps) <= U64_MAX
    ensures r.Some? ==> r.value == acc + Sum(caps)
    decreases |caps|
  {
    if caps == [] then Some(acc)
    else
      SumFront(caps);
      if acc + caps[0] > U64_MAX then None
      else CheckedSum(acc + caps[0], caps[1..])
  }

  function Min(a: int, b: int): int {
    if a <= b then a else b
  }

  /** `vec![output; n]`. */
  function Repeat(o: CellOutput, n: nat): (r: seq<CellOutput>)
    ensures |r| == n && forall i | 0 <= i < n :: r[i] == o
  {
    seq(n, _ => o)
  }

  lemma {:induction false} SumRepeat(o: CellOutput, n: nat)
    ensures Sum(Capacities(Repeat(o, n))) == n * o.capacity
  {
    if n > 0 {
      var c := Capacities(Repeat(o, n));
      assert c[..n - 1] == Capacities(Repeat(o, n - 1));
      SumRepeat(o, n - 1);
    }
  }

  lemma DivBound(a: nat, b: nat)
    requires b >= 1
    ensures a / b <= a
  {
    var q := a / b;
    assert b * q <= a;
    MulAtLeast(b, q);
  }

  lemma {:induction false} MulAtLeast(b: nat, q: nat)
    requires b >= 1
    ensures q <= b * q
    decreases b
  {
    if b > 1 {
      MulAtLeast(b - 1, q);
      assert b * q == (b - 1) * q + q;
    }
  }


  /** The split of `total`: `size` destination outputs of `least` each, and the change. */
  function Split(total: U64, least: U64, maxCount: U64): (s: (nat, U64))
    requires 0 < least < total
    ensures s.0 == Min(total / least - 1, maxCount)
    ensures s.1 >= least && least * s.0 + s.1 == total
  {
    var q := total / least;
    var r := total % least;
    DivFacts(total, least);
    var outputSize0 := q - 1;
    var remain := if outputSize0 > maxCount then outputSize0 - maxCount else 0;
    var outputSize := if outputSize0 > maxCount then maxCount else outputSize0;
    SplitArithmetic(least, q, r, maxCount, outputSize, remain);
    (outputSize, r + least * remain + least)
  }

  lemma DivFacts(total: nat, least: nat)
    requires 0 < least < total
    ensures total == least * (total / least) + total % least && total / least >= 1
  {
  }

  lemma SplitArithmetic(least: nat, q: nat, r: nat, maxCount: nat, size: nat, remain: nat)
    requires q >= 1
    requires remain == (if q - 1 > maxCount then q - 1 - maxCount else 0)
    requires size == (if q - 1 > maxCount then maxCount else q - 1)
    ensures least * size + (r + least * remain + least) == least * q + r
    ensures least * size >= 0
  {
    if q - 1 > maxCount {
      assert remain + size + 1 == q;
    } else {
      assert size + 1 == q && remain == 0;
    }
    assert least * size + least * remain + least == least * (size + remain + 1);
  }

  /** The outputs of a harvest: change first, under `lockIn`, then the destination outputs. */
  function HarvestOutputs(total: U64, least: U64, maxCount: U64, lockIn: Script, lockOut: Script): (r: seq<CellOutput>)
    requires 0 < least < total
    ensures |r| == Min(total / least - 1, maxCount) + 1
    ensures r[0].lock == lockIn && r[0].capacity >= least && r[0].data == [] && r[0].typeScript == None
    ensures forall i | 1 <= i < |r| :: r[i] == CellOutput(least, [], lockOut, None)
    ensures Sum(Capacities(r)) == total
  {
    var (outputSize, change) := Split(total, least, maxCount);
    var destination := CellOutput(least, [], lockOut, None);
    var r := [CellOutput(change, [], lockIn, None)] + Repeat(destination, outputSize);
    assert Capacities(r) == [change] + Capacities(Repeat(destination, outputSize));
    SumAppend([change], Capacities(Repeat(destination, outputSize)));
    assert [change as nat][..0] == [];
    SumRepeat(destination, outputSize);
    r
  }

  /** Every fetched cell spent in order, with `since = 0` and no arguments. */
  function Inputs(cells: seq<LiveCell>): (r: seq<CellInput>)
    ensures |r| == |cells|
    ensures forall i | 0 <= i < |cells| :: r[i] == CellInput(cells[i].outPoint, [], 0)
  {
    seq(|cells|, i requires 0 <= i < |cells| => CellInput(cells[i].outPoint, [], 0))
  }

  /** The shape a harvest transaction of `total` must have. */
  ghost predicate IsHarvest(tx: Transaction, cells: seq<LiveCell>, total: nat, lockIn: Script, lockOut: Script,
                            least: U64, maxCount: U64)
    requires least > 0
  {
    && tx.version == 0 && tx.deps == [] && tx.witnesses == []
    && |tx.inputs| == |cells|
    && (forall i | 0 <= i < |cells| :: tx.inputs[i] == CellInput(cells[i].outPoint, [], 0))
    && |tx.outputs| == Min(total / least - 1, maxCount) + 1
    && tx.outputs != []
    && tx.outputs[0].lock == lockIn && tx.outputs[0].capacity >= least
    && tx.outputs[0].data == [] && tx.outputs[0].typeScript == None
    && (forall i | 1 <= i < |tx.outputs| :: tx.outputs[i] == CellOutput(least, [], lockOut, None))
    && Sum(Capacities(tx.outputs)) == total
  }

  /** `CkbClientPlus::steal` applied to the result of `cells_by_lock_hash`;
      `leastCapacity` is the occupied capacity of an empty output under `lockOut`. */
  function Steal(fetched: Result<seq<LiveCell>>, lockIn: Script, lockOut: Script, leastCapacity: U64, maxCount: U64)
    : (r: Result<Option<Transaction>>)
    requires leastCapacity > 0
    ensures fetched.Err? ==> r == Err(fetched.error)
    ensures fetched.Ok? && !AllParse(fetched.value) ==> r == Err(PARSE_CAPACITY_FAILED)
    ensures fetched.Ok? && AllParse(fetched.value) && TotalCapacity(fetched.value) > U64_MAX ==>
              r == Err(SUM_CAPACITY_OVERFLOW)
    ensures fetched.Ok? && AllParse(fetched.value) && TotalCapacity(fetched.value) <= U64_MAX ==>
              r.Ok? && (r.value.None? <==> TotalCapacity(fetched.value) <= leastCapacity)
    ensures r.Ok? && r.value.Some? ==>
              fetched.Ok? && AllParse(fetched.value) &&
              IsHarvest(r.value.value, fetched.value, TotalCapacity(fetched.value), lockIn, lockOut, leastCapacity, maxCount)
  {
    if fetched.Err? then Err(fetched.error)
    else
      var cells := fetched.value;
      match ParseCapacities(cells)
      case None => Err(PARSE_CAPACITY_FAILED)
      case Some(caps) =>
        match CheckedSum(0, caps)
        case None => Err(SUM_CAPACITY_OVERFLOW)
        case Some(total) =>
          if total > leastCapacity then
            Ok(Some(Transaction(0, [], Inputs(cells), HarvestOutputs(total, leastCapacity, maxCount, lockIn, lockOut), [])))
          else
            Ok(None)
  }

  /** With the harvester's `max_count` nothing is ever folded into the change
      beyond the remainder: the change is `total % least + least`. */
  lemma UncappedHarvest(total: U64, least: U64, lockIn: Script, lockOut: Script)
    requires 0 < least < total
    ensures |HarvestOutputs(total, least, USIZE_MAX, lockIn, lockOut)| == total / least
    ensures HarvestOutputs(total, least, USIZE_MAX, lockIn, lockOut)[0].capacity == total % least + least
  {
    DivBound(total, least);
  }

  lemma HarvestExample(lockIn: Script, lockOut: Script)
    ensures var outs := HarvestOutputs(1_000_000, 6100, 10, lockIn, lockOut);
            |outs| == 11 && outs[0].capacity == 939_000 &&
            forall i | 1 <= i < 11 :: outs[i].capacity == 6100 && outs[i].lock == lockOut
  {
  }
}
