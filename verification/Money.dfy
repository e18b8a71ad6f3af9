/** Credit amounts, as exact reals. Balances are kept on a grid of 1/10000. */
module Money {
  /** x is a whole number of ten-thousandths. */
  predicate OnGrid(x: real) {
    (x * 10000.0).Floor as real == x * 10000.0
  }

  /** The wallet's rounding: `Math.round(x * 10000) / 10000`, where JavaScript's
      `Math.round` takes ties upwards. The contract picks out one value: the grid
      point nearest to x, and the upper one of two equally near. */
  function RoundTo4(x: real): (r: real)
    ensures OnGrid(r)
    ensures -0.00005 < r - x <= 0.00005
  {
    (x * 10000.0 + 0.5).Floor as real / 10000.0
  }

  lemma RoundIsUnique(x: real, g: real)
    requires OnGrid(g) && -0.00005 < g - x <= 0.00005
    ensures g == RoundTo4(x)
  {
    var r := RoundTo4(x);
    var i, j := (g * 10000.0).Floor, (r * 10000.0).Floor;
    assert -1.0 < (i - j) as real < 1.0;
  }

  lemma RoundKeepsGrid(x: real)
    ensures RoundTo4(x) == x <==> OnGrid(x)
  {
    if OnGrid(x) {
      RoundIsUnique(x, x);
    }
  }

  lemma RoundNonNegative(x: real)
    requires 0.0 <= x
    ensures 0.0 <= RoundTo4(x)
  {
    var r := RoundTo4(x);
    assert -0.5 < r * 10000.0;
  }

  lemma WholeIsOnGrid(x: real, k: int)
    requires x * 10000.0 == k as real
    ensures OnGrid(x)
  {
  }

  lemma GridSum(x: real, y: real)
    requires OnGrid(x) && OnGrid(y)
    ensures OnGrid(x + y) && OnGrid(x - y)
  {
    var i, j := (x * 10000.0).Floor, (y * 10000.0).Floor;
    WholeIsOnGrid(x + y, i + j);
    WholeIsOnGrid(x - y, i - j);
  }
}
