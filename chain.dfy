/** The reorganisation-safe height: blocks this far below the remote tip are
    treated as final. */
module Chain {
  import opened Types

  const SAFE_NUMBER_DISTANCE: U64 := 10

  /** None when the tip is too low; otherwise the tip less the distance. */
  function CalculateSafeNumber(tip: U64): (r: Option<U64>)
    ensures r.None? <==> tip < SAFE_NUMBER_DISTANCE
    ensures r.Some? ==> r.value <= tip && tip - r.value == SAFE_NUMBER_DISTANCE
  {
    if tip < SAFE_NUMBER_DISTANCE then None else Some(tip - SAFE_NUMBER_DISTANCE)
  }

  /** A later tip never yields an earlier safe height. */
  lemma SafeNumberMonotone(tip1: U64, tip2: U64)
    requires tip1 <= tip2
    requires CalculateSafeNumber(tip1).Some? && CalculateSafeNumber(tip2).Some?
    ensures CalculateSafeNumber(tip1).value <= CalculateSafeNumber(tip2).value
  {
  }

  lemma SafeNumberExamples()
    ensures CalculateSafeNumber(25) == Some(15)
    ensures CalculateSafeNumber(10) == Some(0)
    ensures CalculateSafeNumber(5) == None
  {
  }
}
