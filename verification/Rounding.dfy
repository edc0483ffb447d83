/** `Math.round` on exact reals, and the arithmetic around it. */
module Rounding {

  /** `Math.round` */
  function Round(x: real): int {
    (x + 0.5).Floor
  }

  /** Rounded to cents, as `round2` does everywhere in the repository. */
  function Round2(x: real): real {
    Round(x * 100.0) as real / 100.0
  }

  lemma ScaleLe(x: real, y: real, s: real)
    requires s >= 0.0 && x <= y
    ensures s * x <= s * y
  {}

  lemma ScaleLt(x: real, y: real, s: real)
    requires s > 0.0
    ensures s * x < s * y <==> x < y
  {}

  lemma FloorOf(x: real, n: int)
    ensures x.Floor < n <==> x < n as real
  {}

  lemma RoundIsNear(x: real)
    ensures x - 0.5 <= Round(x) as real <= x + 0.5
  {}

  /** A value less than half a unit away from a whole number rounds to it. */
  lemma RoundsTo(x: real, n: int)
    requires n as real - 0.5 <= x < n as real + 0.5
    ensures Round(x) == n
  {
    FloorOf(x + 0.5, n);
    FloorOf(x + 0.5, n + 1);
  }
}
