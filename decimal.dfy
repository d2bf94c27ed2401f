/** Decimal text of unsigned 64-bit numbers, as the node's JSON carries
    capacities and timestamps, and the parser `str::parse::<u64>` applied to it. */
module Decimal {
  import opened Types

  predicate IsDigit(c: char) {
    '0' <= c <= '9'
  }

  predicate AllDigits(s: string) {
    forall i | 0 <= i < |s| :: IsDigit(s[i])
  }

  /** The number a non-empty run of decimal digits denotes (leading zeros allowed). */
  function Value(ds: string): nat
    requires AllDigits(ds)
  {
    if ds == [] then 0 else 10 * Value(ds[..|ds| - 1]) + (ds[|ds| - 1] as int - '0' as int)
  }

  /** `s.parse::<u64>()`: an optional single leading '+', then at least one
      digit and nothing else, denoting a value that fits in 64 bits. */
  function ParseU64(s: string): Option<U64>
  {
    var digits := if |s| > 0 && s[0] == '+' then s[1..] else s;
    if |digits| == 0 || !AllDigits(digits) then None
    else if Value(digits) > U64_MAX then None
    else Some(Value(digits))
  }

  /** The canonical rendering: no sign, no leading zeros. */
  function Show(n: nat): (s: string)
    ensures |s| > 0 && AllDigits(s)
  {
    var d := ['0' + (n % 10) as char];
    if n < 10 then d else Show(n / 10) + d
  }

  lemma {:induction false} ValueOfShow(n: nat)
    ensures Value(Show(n)) == n
  {
    var d := ['0' + (n % 10) as char];
    if n >= 10 {
      var s := Show(n);
      assert s == Show(n / 10) + d;
      assert s[..|s| - 1] == Show(n / 10);
      ValueOfShow(n / 10);
    }
  }

  /** Every capacity the node renders canonically parses back to itself. */
  lemma ParseShowRoundTrip(n: U64)
    ensures ParseU64(Show(n)) == Some(n)
  {
    ValueOfShow(n);
  }

  /** Values beyond 64 bits are rejected rather than truncated. */
  lemma ParseRejectsOverflow(n: nat)
    requires n > U64_MAX
    ensures ParseU64(Show(n)) == None
  {
    ValueOfShow(n);
  }

  /** A sign, an empty string or a stray letter makes the parse fail. */
  lemma ParseRejectsMalformed()
    ensures ParseU64("") == None && ParseU64("+") == None && ParseU64("-1") == None
    ensures ParseU64("12a") == None
    ensures ParseU64("+42") == Some(42) && ParseU64("007") == Some(7)
  {
    assert !AllDigits("-1") by { assert !IsDigit("-1"[0]); }
    assert !AllDigits("12a") by { assert !IsDigit("12a"[2]); }
    assert "+42"[1..] == "42";
    assert "42"[..1] == "4";
    assert "007"[..2] == "00" && "00"[..1] == "0";
  }
}
