/** Machine integers: what a 64-bit product and a 32-bit conversion keep of a number. */
module Widths {
  const TWO_31 := 0x8000_0000
  const TWO_63 := 0x8000_0000_0000_0000

  function Int64(x: int): (r: int)
    ensures -TWO_63 <= r < TWO_63
    ensures -TWO_63 <= x < TWO_63 <==> r == x
  {
    (x + TWO_63) % (2 * TWO_63) - TWO_63
  }

  function Int32(x: int): (r: int)
    ensures -TWO_31 <= r < TWO_31
    ensures -TWO_31 <= x < TWO_31 <==> r == x
  {
    (x + TWO_31) % (2 * TWO_31) - TWO_31
  }

  // What a machine integer keeps is the number modulo two to the power of its width, the one around zero.
  lemma {:induction false} WidthsAre(x: int)
    ensures -9223372036854775808 <= Int64(x) <= 9223372036854775807 && (x - Int64(x)) % 18446744073709551616 == 0
    ensures -2147483648 <= Int32(x) <= 2147483647 && (x - Int32(x)) % 4294967296 == 0
  {
  }

  // Durations count nanoseconds.
  const SECOND := 1_000_000_000

  const MAX_SECONDS := 9_223_372_036

  // A number of seconds as a duration.
  function Seconds(n: int): int {
    Int64(n * SECOND)
  }

  // It is that many seconds only up to about 292 years.
  lemma SecondsAreExact(n: int)
    ensures Seconds(n) == n * SECOND <==> -MAX_SECONDS <= n <= MAX_SECONDS
  {
    hide Int64;
  }
}
