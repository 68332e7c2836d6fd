/** Go's integer division, which truncates toward zero (Dafny's `/` is Euclidean). */
module GoArith {

  /**
   * Go's `a / b` on ints for a positive divisor (the bridge divides by
   * 1000000 only): the quotient rounded toward zero, so the remainder
   * takes the sign of the dividend.
   */
  function Quo(a: int, b: int): (q: int)
    requires b > 0
    ensures a >= 0 ==> 0 <= a - q * b < b
    ensures a < 0 ==> -b < a - q * b <= 0
  {
    if a >= 0 then a / b
    else
      var u := (-a) / b;
      assert -a == u * b + (-a) % b;
      -u
  }

  /** Truncation is symmetric around zero, which Euclidean division is not. */
  lemma QuoOdd(a: int, b: int)
    requires b > 0
    ensures Quo(-a, b) == -Quo(a, b)
  {
  }

  /** A backward seek of 1.5 s moves by 1 s in Go, where a Euclidean quotient would give 2. */
  lemma QuoBackwardSeek()
    ensures Quo(-1500000, 1000000) == -1
    ensures -1500000 / 1000000 == -2
  {
  }
}
