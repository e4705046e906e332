/** The two-decimal rendering `f"{x:.2f}"` that the application writes into
    its read-only text fields, and the value `float(...)` reads back. */
module Display {

  /** The number of hundredths shown by a `.2f` format: the integer nearest to
      100 * x, with an exact half going to the even neighbour. */
  function Hundredths(x: real): (n: int)
    ensures n as real - 0.5 <= x * 100.0 <= n as real + 0.5
    ensures x * 100.0 == n as real - 0.5 || x * 100.0 == n as real + 0.5 ==> n % 2 == 0
  {
    var scaled := x * 100.0;
    var low := scaled.Floor;
    var frac := scaled - low as real;
    if frac < 0.5 then low
    else if frac > 0.5 then low + 1
    else if low % 2 == 0 then low
    else low + 1
  }

  /** The value a field shows after `.2f` formatting, read back as a number. */
  function TwoDecimals(x: real): (r: real)
    ensures x - 0.005 <= r <= x + 0.005
  {
    Hundredths(x) as real / 100.0
  }

  /** Round-half-to-even is the only rounding with both properties of
      `Hundredths`: any other integer that is as near and even on a tie is
      the same integer. */
  lemma HundredthsUnique(x: real, m: int)
    requires m as real - 0.5 <= x * 100.0 <= m as real + 0.5
    requires x * 100.0 == m as real - 0.5 || x * 100.0 == m as real + 0.5 ==> m % 2 == 0
    ensures m == Hundredths(x)
  {
  }

  /** Ties round to even, as Python's formatting does: 0.125 shows as 0.12 and
      0.375 as 0.38. */
  lemma HundredthsTies()
    ensures Hundredths(0.125) == 12
    ensures Hundredths(0.375) == 38
    ensures Hundredths(359.996) == 36000
  {
  }
}
