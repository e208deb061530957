/**
 * Python's `round(x, n)` taken on exact values, for the two places the game rounds
 * to: the nearest multiple of `10^-n`, a tie going to the even multiple. Python
 * applies it to the binary double nearest `x`, which this model does not represent.
 */
module Rounding {

  /** `round(x, 1)` or `round(x, 2)`. */
  datatype Places = Tenths | Cents

  /** The number of units of the last kept place in 1. */
  function Scale(p: Places): (s: real)
    ensures s >= 10.0
  {
    match p
    case Tenths => 10.0
    case Cents => 100.0
  }

  /** Rounding to a whole number, a tie going to the even neighbour. */
  function HalfEven(y: real): int {
    var f := y.Floor;
    var frac := y - f as real;
    if frac < 0.5 then f
    else if frac > 0.5 then f + 1
    else if f % 2 == 0 then f
    else f + 1
  }

  /** The multiple of the last kept place that `round` picks, counted in units of that place. */
  function RoundTicks(x: real, p: Places): int {
    match p
    case Tenths => HalfEven(x * 10.0)
    case Cents => HalfEven(x * 100.0)
  }

  function RoundTo(x: real, p: Places): real {
    RoundTicks(x, p) as real / Scale(p)
  }

  /** Rounding to a whole number moves a value by at most a half. */
  lemma HalfEvenClose(y: real)
    ensures -0.5 <= HalfEven(y) as real - y <= 0.5
  {
  }

  /** A whole number is its own rounding. */
  lemma HalfEvenWhole(n: int)
    ensures HalfEven(n as real) == n
  {
  }

  /** Rounding to a whole number never reverses the order of two values. */
  lemma HalfEvenMonotone(y: real, y': real)
    requires y <= y'
    ensures HalfEven(y) <= HalfEven(y')
  {
    var f, f' := y.Floor, y'.Floor;
    assert f <= f';
    var frac, frac' := y - f as real, y' - f' as real;
    if f < f' {
      assert HalfEven(y) <= f + 1 <= f' <= HalfEven(y');
    } else {
      assert frac <= frac';
      if frac > 0.5 {
        assert HalfEven(y) == f + 1 == HalfEven(y');
      } else if frac == 0.5 && frac' == 0.5 {
        assert HalfEven(y) == HalfEven(y');
      } else if frac == 0.5 {
        assert HalfEven(y') == f + 1;
      } else {
        assert HalfEven(y) == f;
      }
    }
  }

  /** Rounding moves a value by at most half a unit of the last kept place. */
  lemma RoundClose(x: real, p: Places)
    ensures -0.5 / Scale(p) <= RoundTo(x, p) - x <= 0.5 / Scale(p)
  {
    match p
    case Tenths =>
      HalfEvenClose(x * 10.0);
    case Cents =>
      HalfEvenClose(x * 100.0);
  }

  /** A value already on the grid is left unchanged. */
  lemma RoundOnGrid(n: int, p: Places)
    ensures RoundTo(n as real / Scale(p), p) == n as real / Scale(p)
  {
    match p
    case Tenths =>
      assert (n as real / 10.0) * 10.0 == n as real;
      HalfEvenWhole(n);
    case Cents =>
      assert (n as real / 100.0) * 100.0 == n as real;
      HalfEvenWhole(n);
  }

  /** Rounding twice to the same place is rounding once. */
  lemma RoundIdempotent(x: real, p: Places)
    ensures RoundTo(RoundTo(x, p), p) == RoundTo(x, p)
  {
    RoundOnGrid(RoundTicks(x, p), p);
  }

  /** Rounding never reverses the order of two values. */
  lemma RoundMonotone(x: real, x': real, p: Places)
    requires x <= x'
    ensures RoundTo(x, p) <= RoundTo(x', p)
  {
    match p
    case Tenths =>
      HalfEvenMonotone(x * 10.0, x' * 10.0);
    case Cents =>
      HalfEvenMonotone(x * 100.0, x' * 100.0);
  }

  /** A value within `w` of a grid point rounds to within `w` of it, when `w` is on the grid. */
  lemma RoundStaysNear(c: int, w: nat, x: real, p: Places)
    requires (c - w) as real / Scale(p) <= x <= (c + w) as real / Scale(p)
    ensures (c - w) as real / Scale(p) <= RoundTo(x, p) <= (c + w) as real / Scale(p)
  {
    RoundMonotone((c - w) as real / Scale(p), x, p);
    RoundMonotone(x, (c + w) as real / Scale(p), p);
    RoundOnGrid(c - w, p);
    RoundOnGrid(c + w, p);
  }

  /** A value that is not positive does not round to a positive one. */
  lemma RoundNotPositive(x: real, p: Places)
    requires x <= 0.0
    ensures RoundTo(x, p) <= 0.0
  {
    RoundMonotone(x, 0.0, p);
    RoundOnGrid(0, p);
  }
}
