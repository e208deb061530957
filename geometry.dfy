/**
 * `MathGame.generate_geometry_question`: an area, perimeter or volume of a figure with
 * random integer dimensions, answered as "amount unit".
 */
module GeometryQuestion {
  import opened Wrappers
  import opened Choices

  /** The four question types with the dimensions drawn for each. */
  datatype Figure =
    | RectangleArea(length: int, width: int)
    | TriangleArea(base: int, height: int)
    | RectanglePerimeter(length: int, width: int)
    | PrismVolume(length: int, width: int, height: int)

  /** The ranges `randint` draws each dimension from. */
  predicate Valid(f: Figure) {
    match f
    case RectangleArea(l, w) => 5 <= l <= 15 && 3 <= w <= 12
    case TriangleArea(b, h) => 6 <= b <= 16 && 4 <= h <= 12
    case RectanglePerimeter(l, w) => 5 <= l <= 15 && 3 <= w <= 12
    case PrismVolume(l, w, h) => 3 <= l <= 8 && 3 <= w <= 8 && 3 <= h <= 8
  }

  /** The formula the source applies (a triangle's area is `0.5 * base * height`). */
  function Amount(f: Figure): real {
    match f
    case RectangleArea(l, w) => (l * w) as real
    case TriangleArea(b, h) => 0.5 * b as real * h as real
    case RectanglePerimeter(l, w) => (2 * (l + w)) as real
    case PrismVolume(l, w, h) => (l * w * h) as real
  }

  function UnitOf(f: Figure): Unit {
    match f
    case RectangleArea(_, _) => SquareUnits
    case TriangleArea(_, _) => SquareUnits
    case RectanglePerimeter(_, _) => Units
    case PrismVolume(_, _, _) => CubicUnits
  }

  function Answer(f: Figure): Choice {
    Measure(Amount(f), UnitOf(f))
  }

  /** Multiplying by a non-negative factor keeps an inequality. */
  lemma {:induction false} ScaleBounds(lo: int, x: int, hi: int, c: int)
    requires lo <= x <= hi && c >= 0
    ensures lo * c <= x * c <= hi * c
    decreases c
  {
    if c > 0 {
      ScaleBounds(lo, x, hi, c - 1);
      assert x * c == x * (c - 1) + x && lo * c == lo * (c - 1) + lo && hi * c == hi * (c - 1) + hi;
    }
  }

  /** Each answer lies in the range its dimensions allow, so it is always positive. */
  lemma AmountBounds(f: Figure)
    requires Valid(f)
    ensures match f
      case RectangleArea(_, _) => 15.0 <= Amount(f) <= 180.0
      case TriangleArea(_, _) => 12.0 <= Amount(f) <= 96.0
      case RectanglePerimeter(_, _) => 16.0 <= Amount(f) <= 54.0
      case PrismVolume(_, _, _) => 27.0 <= Amount(f) <= 512.0
  {
    match f
    case RectangleArea(l, w) =>
      ScaleBounds(5, l, 15, w);
    case TriangleArea(b, h) =>
      ScaleBounds(6, b, 16, h);
      TriangleHalvesRectangle(b, h);
    case RectanglePerimeter(l, w) =>
    case PrismVolume(l, w, h) =>
      ScaleBounds(3, l, 8, w);
      ScaleBounds(9, l * w, 64, h);
  }

  /** A triangle's area is half that of the rectangle with the same base and height. */
  lemma TriangleHalvesRectangle(b: int, h: int)
    ensures 2.0 * Amount(TriangleArea(b, h)) == Amount(RectangleArea(b, h))
  {
    assert (b * h) as real == b as real * h as real;
  }

  /** The distractor draws `correct + randint(-20, 20)`, one offset per loop turn. */
  function Candidates(f: Figure, offsets: seq<int>): (c: seq<Choice>)
    ensures |c| == |offsets|
  {
    seq(|offsets|, k requires 0 <= k < |offsets| => Measure(Amount(f) + offsets[k] as real, UnitOf(f)))
  }

  predicate ValidOffsets(offsets: seq<int>) {
    forall k :: 0 <= k < |offsets| ==> -20 <= offsets[k] <= 20
  }

  /**
   * `generate_geometry_question`: four distinct options in the figure's unit, the
   * formula's value at `correctIndex`, every other amount positive and within 20 of it.
   */
  method Generate(f: Figure, offsets: seq<int>, js: seq<nat>) returns (r: Result<MultipleChoice, Failure>)
    requires Valid(f) && ValidOffsets(offsets) && ValidSwaps(4, js)
    ensures r.Ok? <==> |Collect([Answer(f)], Candidates(f, offsets), true)| == 4
    ensures r.Ok? ==> |r.value.options| == 4 && Distinct(r.value.options)
    ensures r.Ok? ==> r.value.correctIndex < 4 && r.value.options[r.value.correctIndex] == Answer(f)
    ensures r.Ok? ==> forall i :: 0 <= i < 4 ==>
      r.value.options[i].Measure? && r.value.options[i].unit == UnitOf(f) &&
      r.value.options[i].amount > 0.0 && -20.0 <= r.value.options[i].amount - Amount(f) <= 20.0
  {
    AmountBounds(f);
    var candidates := Candidates(f, offsets);
    r := Assemble(Answer(f), candidates, true, js);
    if r.Ok? {
      forall i | 0 <= i < 4 && i != r.value.correctIndex
        ensures r.value.options[i].Measure? && r.value.options[i].unit == UnitOf(f) &&
          -20.0 <= r.value.options[i].amount - Amount(f) <= 20.0
      {
        var k :| 0 <= k < |candidates| && candidates[k] == r.value.options[i];
      }
    }
  }
}
