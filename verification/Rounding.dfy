/** Python's `round` on exact numbers: to the nearest integer, ties to the even one. */
module Rounding {
  function RoundHalfEven(r: real): (n: int)
    ensures r - 0.5 <= n as real <= r + 0.5
    ensures (n as real == r - 0.5 || n as real == r + 0.5) ==> n % 2 == 0
  {
    var lower := r.Floor;
    var part := r - lower as real;
    if part < 0.5 then lower
    else if part > 0.5 then lower + 1
    else if lower % 2 == 0 then lower
    else lower + 1
  }

  /** Nearest with ties to even leaves no choice. */
  lemma {:induction false} RoundUnique(r: real, n: int)
    requires r - 0.5 <= n as real <= r + 0.5
    requires (n as real == r - 0.5 || n as real == r + 0.5) ==> n % 2 == 0
    ensures n == RoundHalfEven(r)
  {
    var m := RoundHalfEven(r);
    assert -1.0 <= n as real - m as real <= 1.0;
    assert -1 <= n - m <= 1;
  }

  lemma {:induction false} RoundInteger(n: int)
    ensures RoundHalfEven(n as real) == n
  {
  }

  lemma {:induction false} RoundMonotone(a: real, b: real)
    requires a <= b
    ensures RoundHalfEven(a) <= RoundHalfEven(b)
  {
    var m, n := RoundHalfEven(a), RoundHalfEven(b);
    assert m as real - n as real <= 1.0;
    assert m - n <= 1;
  }
}
