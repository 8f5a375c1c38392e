/**
 `round(x, 6)` with every score held in micro-units: rounding to six places is rounding to an integer
 nearest to the exact value. Which of two equally near integers is taken is left open.
 */
module Rounding {

  ghost predicate Nearest(x: real, n: int) {
    -0.5 <= x - n as real <= 0.5
  }

  function Weighted(alpha: real, current: real, previous: real): real {
    alpha * current + (1.0 - alpha) * previous
  }

  /**
   What the program's `round` does. The moving average is computed in floating point before it is
   rounded, so the side an exact tie falls on may depend on the operands and not only on their
   weighted sum.
   */
  datatype Rounder = Rounder(nearest: real -> int, blend: (real, int, int) -> int) {
    ghost predicate Valid() {
      && (forall x: real :: Nearest(x, nearest(x)))
      && forall alpha: real, current: int, previous: int ::
           Nearest(Weighted(alpha, current as real, previous as real), blend(alpha, current, previous))
    }
  }

  /** Nearest values of a larger real are no smaller. */
  lemma NearestIsMonotone(x: real, m: int, y: real, n: int)
    requires x < y && Nearest(x, m) && Nearest(y, n)
    ensures m <= n
  {
  }

  lemma RoundIsMonotone(r: Rounder, x: real, y: real)
    requires r.Valid() && x <= y
    ensures r.nearest(x) <= r.nearest(y)
  {
    if x < y {
      NearestIsMonotone(x, r.nearest(x), y, r.nearest(y));
    }
  }

  /** An integer lower or upper bound on the exact value survives rounding. */
  lemma NearestKeepsIntegerBounds(x: real, n: int, lo: int, hi: int)
    requires Nearest(x, n) && lo as real <= x <= hi as real
    ensures lo <= n <= hi
  {
  }

  lemma RoundOfInteger(r: Rounder, n: int)
    requires r.Valid()
    ensures r.nearest(n as real) == n
  {
    NearestKeepsIntegerBounds(n as real, r.nearest(n as real), n, n);
  }

  /******* Two of the many *******/

  function HalfUp(x: real): int {
    (x + 0.5).Floor
  }

  function HalfEven(x: real): int {
    var below := x.Floor;
    var rest := x - below as real;
    if rest < 0.5 || (rest == 0.5 && below % 2 == 0) then below else below + 1
  }

  function RoundBy(nearest: real -> int): Rounder {
    Rounder(nearest, (alpha, current, previous) => nearest(Weighted(alpha, current as real, previous as real)))
  }

  /** Rounders exist, and they differ. */
  lemma RoundersDiffer()
    ensures RoundBy(HalfUp).Valid() && RoundBy(HalfEven).Valid()
    ensures HalfUp(4.5) != HalfEven(4.5)
  {
    forall x: real ensures Nearest(x, HalfUp(x)) && Nearest(x, HalfEven(x)) {
    }
    assert HalfEven(4.5) == 4;
  }
}
