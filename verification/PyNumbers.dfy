/** Python's `round` to an integer, and which ints are too large to be a double. */
module PyNumbers {

  /** The nearest integer, ties to even. */
  function Round(r: real): (n: int)
    ensures n as real - 0.5 <= r <= n as real + 0.5
  {
    var f := r.Floor;
    var frac := r - f as real;
    if frac < 0.5 || (frac == 0.5 && f % 2 == 0) then f else f + 1
  }

  function Distance(a: real, b: real): real { if a < b then b - a else a - b }

  /** No integer is nearer, and one that is as near leaves the even one to be chosen. */
  lemma RoundNearest(r: real, k: int)
    ensures Distance(Round(r) as real, r) <= Distance(k as real, r)
    ensures Distance(Round(r) as real, r) == Distance(k as real, r) ==> k == Round(r) || Round(r) % 2 == 0
  {
    var f := r.Floor;
    if k <= f {
      assert k as real <= f as real <= r;
    } else {
      assert (f + 1) as real <= k as real;
    }
  }

  lemma RoundInteger(n: int)
    ensures Round(n as real) == n
  {
  }

  lemma RoundMonotone(a: real, b: real)
    requires a <= b
    ensures Round(a) <= Round(b)
  {
    if a.Floor == b.Floor {
    } else {
      assert a.Floor + 1 <= b.Floor;
    }
  }

  /** 2^1024 - 2^970: where rounding an int to a double first overflows. */
  const FLOAT_OVERFLOW: int := 0xFFFFFFFFFFFFFC00000000000000000000000000000000000000000000000000000000000000000000000000000000000000000000000000000000000000000000000000000000000000000000000000000000000000000000000000000000000000000000000000000000000000000000000000000000000000000000000000

  /** `float(n)` raises OverflowError. */
  predicate TooLargeForFloat(n: int) {
    n >= FLOAT_OVERFLOW || n <= -FLOAT_OVERFLOW
  }
}
