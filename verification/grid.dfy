/** The rounding grid of ceil_dt. */
module Grid {
  import opened Outcomes

  /** Python's `%` on integers: floored, so the result takes the sign of `b`. */
  function PyMod(a: int, b: int): (r: int)
    requires b != 0
    ensures b > 0 ==> 0 <= r < b
    ensures b < 0 ==> b < r <= 0
    ensures (a - r) % b == 0
  {
    PyModLeavesMultiple(a, b);
    if b > 0 then a % b else -((-a) % (-b))
  }

  lemma PyModLeavesMultiple(a: int, b: int)
    requires b != 0
    ensures (a - (if b > 0 then a % b else -((-a) % (-b)))) % b == 0
  {
    if b > 0 {
      assert a == b * (a / b) + a % b;
      MultipleHasNoRemainder(a / b, b);
    } else {
      var c, a' := -b, -a;
      assert a' == c * (a' / c) + a' % c;
      assert a - -(a' % c) == b * (a' / c);
      MultipleHasNoRemainder(a' / c, b);
    }
  }

  /** `x` lies on the grid of step `minutes` minutes that passes through `base`. */
  predicate OnGrid(x: int, base: int, minutes: int) {
    minutes != 0 && (x - base) % (60 * minutes) == 0
  }

  /**
    ceil_dt(dt, base, minutes) = `dt + (base - dt) % timedelta(minutes=minutes)`:
    for a positive step, the first grid point at or after `dt`.
   */
  function CeilDt(dt: int, base: int, minutes: int): (r: Result<int>)
    ensures r.Err? <==> minutes == 0
    ensures r.Ok? ==> OnGrid(r.value, base, minutes)
    ensures minutes > 0 ==> dt <= r.value < dt + 60 * minutes
    ensures minutes < 0 ==> dt + 60 * minutes < r.value <= dt
  {
    if minutes == 0 then
      Err(ZeroDivision)
    else
      var step := 60 * minutes;
      var k := PyMod(base - dt, step);
      NegatedMultiple(base - dt - k, step);
      Ok(dt + k)
  }

  lemma MultipleHasNoRemainder(q: int, b: int)
    requires b != 0
    ensures (b * q) % b == 0
  {
    var x := b * q;
    var d := q - x / b;
    assert x == b * (x / b) + x % b;
    assert x % b == b * d;
    if d > 0 {
      assert b * d >= b || b * d <= b;
    }
  }

  lemma NegatedMultiple(x: int, b: int)
    requires b != 0 && x % b == 0
    ensures (-x) % b == 0
  {
    assert x == b * (x / b);
    assert -x == b * (-(x / b));
    MultipleHasNoRemainder(-(x / b), b);
  }

  lemma SumOfMultiples(x: int, y: int, b: int)
    requires b != 0 && x % b == 0 && y % b == 0
    ensures (x + y) % b == 0
  {
    assert x == b * (x / b);
    assert y == b * (y / b);
    assert x + y == b * (x / b + y / b);
    MultipleHasNoRemainder(x / b + y / b, b);
  }

  /** A nonzero multiple of `b` is at least as large as `b` in magnitude. */
  lemma MultipleGap(x: int, b: int)
    requires b > 0 && x % b == 0 && 0 < x
    ensures b <= x
  {
    assert x == b * (x / b);
  }

  /** Grid membership is transitive: the grid through a grid point is the same grid. */
  lemma OnGridTrans(x: int, y: int, z: int, minutes: int)
    requires OnGrid(x, y, minutes) && OnGrid(y, z, minutes)
    ensures OnGrid(x, z, minutes)
  {
    SumOfMultiples(x - y, y - z, 60 * minutes);
    assert (x - y) + (y - z) == x - z;
  }

  lemma OnGridRefl(x: int, minutes: int)
    requires minutes != 0
    ensures OnGrid(x, x, minutes)
  {
    MultipleHasNoRemainder(0, 60 * minutes);
  }

  /** For a positive step, ceil_dt is the LEAST grid point at or after `dt`. */
  lemma CeilDtIsLeast(dt: int, base: int, minutes: int, x: int)
    requires minutes > 0
    requires dt <= x && OnGrid(x, base, minutes)
    ensures CeilDt(dt, base, minutes).value <= x
  {
    var r := CeilDt(dt, base, minutes).value;
    if x < r {
      NegatedMultiple(x - base, 60 * minutes);
      SumOfMultiples(r - base, -(x - base), 60 * minutes);
      assert (r - base) + -(x - base) == r - x;
      MultipleGap(r - x, 60 * minutes);
      assert false;
    }
  }

  /** For a negative step, ceil_dt rounds DOWN: the greatest grid point at or before `dt`. */
  lemma CeilDtIsGreatestForNegativeStep(dt: int, base: int, minutes: int, x: int)
    requires minutes < 0
    requires x <= dt && OnGrid(x, base, minutes)
    ensures x <= CeilDt(dt, base, minutes).value
  {
    var r := CeilDt(dt, base, minutes).value;
    var step := 60 * minutes;
    if r < x {
      NegatedMultiple(r - base, step);
      SumOfMultiples(x - base, -(r - base), step);
      assert (x - base) + -(r - base) == x - r;
      assert (x - r) % step == 0;
      assert (x - r) % (-step) == 0 by {
        assert x - r == step * ((x - r) / step);
        assert x - r == (-step) * (-((x - r) / step));
        MultipleHasNoRemainder(-((x - r) / step), -step);
      }
      MultipleGap(x - r, -step);
      assert false;
    }
  }
}
