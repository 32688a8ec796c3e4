/**
 * The one shape in which the game and the species use `Math.random()`:
 * `Math.floor(Math.random() * n)`. The random real is a parameter here.
 */
module Draws {

  /** `Math.floor(p * n)` for a draw `p` of `Math.random()`, which lies in [0, 1). */
  function ScaledFloor(p: real, n: nat): (r: int)
    requires 0.0 <= p < 1.0
    ensures n > 0 ==> 0 <= r < n
    ensures n == 0 ==> r == 0
  {
    var x := p * n as real;
    assert 0.0 <= x;
    assert n > 0 ==> x < n as real by {
      if n > 0 {
        assert p * n as real < 1.0 * n as real;
      }
    }
    x.Floor
  }
}
