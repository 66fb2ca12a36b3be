/** Random draws: every `Math.random()` result is passed in as a real in [0, 1). */
module Draws {

  predicate IsDraw(r: real) {
    0.0 <= r < 1.0
  }

  /** `Math.floor(r * n)`: an index into a list of `n` elements. */
  function PickIndex(r: real, n: nat): (k: nat)
    requires IsDraw(r) && n > 0
    ensures k < n
  {
    var x := r * n as real;
    ProductBelow(r, n as real);
    x.Floor
  }

  /** A draw times a positive length lies in [0, length). */
  lemma ProductBelow(r: real, m: real)
    requires IsDraw(r) && m > 0.0
    ensures 0.0 <= r * m < m
  {
    assert m - r * m == (1.0 - r) * m;
    assert (1.0 - r) * m > 0.0;
  }
}
