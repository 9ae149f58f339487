/**
 * The JavaScript `Math` functions the budgeting core uses, on exact reals.
 * `Math.floor` is Dafny's `.Floor`; `Math.round` rounds halves towards
 * positive infinity; `Math.ceil` is the negated floor of the negation.
 */
module JsMath {

  /** `Math.round(x)`: the nearest integer, halves rounded up. */
  function Round(x: real): (r: int)
    ensures x - 0.5 < r as real <= x + 0.5
  {
    (x + 0.5).Floor
  }

  /** `Math.ceil(x)`: the least integer not below `x`. */
  function Ceil(x: real): (r: int)
    ensures x <= r as real < x + 1.0
  {
    -((-x).Floor)
  }

  /** `Math.max(a, b)` on integers. */
  function Max(a: int, b: int): (r: int)
    ensures r >= a && r >= b && (r == a || r == b)
  {
    if a >= b then a else b
  }

  /** `Math.min(a, b)` on reals. */
  function Min(a: real, b: real): (r: real)
    ensures r <= a && r <= b && (r == a || r == b)
  {
    if a <= b then a else b
  }

  /** `Math.round(x * 10) / 10`: `x` rounded to one decimal place. */
  function Round1(x: real): (r: real)
    ensures x - 0.05 < r <= x + 0.05
    ensures r * 10.0 == (r * 10.0).Floor as real
  {
    Round(x * 10.0) as real / 10.0
  }

  /** Rounding to one decimal never lowers a value that is already a whole tenth, such as 100. */
  lemma Round1AtLeast(x: real, bound: int)
    ensures x >= bound as real / 10.0 ==> Round1(x) >= bound as real / 10.0
  {
    if x >= bound as real / 10.0 {
      var n := Round(x * 10.0);
      assert x * 10.0 >= bound as real;
      assert n as real > x * 10.0 - 0.5 >= bound as real - 0.5;
      assert n >= bound;
    }
  }

  /** Rounding to one decimal never raises a value past a whole tenth at or above it. */
  lemma Round1AtMost(x: real, bound: int)
    ensures x <= bound as real / 10.0 ==> Round1(x) <= bound as real / 10.0
  {
    if x <= bound as real / 10.0 {
      var n := Round(x * 10.0);
      assert x * 10.0 <= bound as real;
      assert n as real <= x * 10.0 + 0.5 <= bound as real + 0.5;
      assert n <= bound;
    }
  }

  /** Rounding to one decimal is monotone. */
  lemma Round1Monotone(x: real, y: real)
    requires x <= y
    ensures Round1(x) <= Round1(y)
  {
    var a, b := Round(x * 10.0), Round(y * 10.0);
    assert a as real <= x * 10.0 + 0.5 <= y * 10.0 + 0.5 < b as real + 1.0;
    assert a <= b;
    assert a as real / 10.0 <= b as real / 10.0;
  }

  /** `Math.floor(d / 14)` on a whole number of days is integer division by 14. */
  lemma FloorDaysByFortnight(d: int)
    ensures ((d as real) / 14.0).Floor == d / 14
  {
    var f := ((d as real) / 14.0).Floor;
    assert f as real <= (d as real) / 14.0 < f as real + 1.0;
    assert 14 * f <= d < 14 * f + 14;
  }

  /** `Math.ceil(d / 14)` on a whole number of days is `(d + 13) / 14`. */
  lemma CeilDaysByFortnight(d: int)
    ensures Ceil((d as real) / 14.0) == (d + 13) / 14
  {
    var c := Ceil((d as real) / 14.0);
    assert (d as real) / 14.0 <= c as real < (d as real) / 14.0 + 1.0;
    assert d <= 14 * c < d + 14;
  }
}
