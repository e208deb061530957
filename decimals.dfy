/**
 * `MathGame.generate_decimal_question`. Every operand the source draws is rounded to
 * two (or one) decimal places, so here each draw is an integer count of hundredths
 * (or tenths). On those grids every result is already a whole number of hundredths
 * and the source's `round(result, 2)` changes nothing.
 */
module DecimalQuestion {
  import opened Wrappers
  import opened Choices
  import opened Rounding

  datatype Operation = Add | Subtract | Multiply | Divide

  /**
   * The random draws: `cents1`, `cents2` are `round(uniform(1, 50), 2)` and
   * `round(uniform(1, 20), 2)` in hundredths (drawn for every operation);
   * `tenths1`, `tenths2` are `round(uniform(1, 10), 1)` in tenths (a product uses
   * both, a quotient uses `tenths2` as divisor); `quotientCents` is the quotient
   * `round(uniform(1, 10), 2)` in hundredths that a division is built backwards from.
   */
  datatype Draws = Draws(op: Operation, cents1: int, cents2: int, tenths1: int, tenths2: int, quotientCents: int)

  /**
   * The operands as the question shows them: `left op right`. A division's dividend
   * `num2 * result` is printed with `:.2f`, so it is shown rounded to hundredths.
   */
  datatype Prompt = Prompt(op: Operation, left: real, right: real)

  predicate Valid(d: Draws) {
    100 <= d.cents1 <= 5000 && 100 <= d.cents2 <= 2000 &&
    10 <= d.tenths1 <= 100 && 10 <= d.tenths2 <= 100 &&
    100 <= d.quotientCents <= 1000
  }

  function Shown(d: Draws): Prompt {
    match d.op
    case Add => Prompt(Add, d.cents1 as real / 100.0, d.cents2 as real / 100.0)
    case Subtract =>
      if d.cents1 < d.cents2 then Prompt(Subtract, d.cents2 as real / 100.0, d.cents1 as real / 100.0)
      else Prompt(Subtract, d.cents1 as real / 100.0, d.cents2 as real / 100.0)
    case Multiply => Prompt(Multiply, d.tenths1 as real / 10.0, d.tenths2 as real / 10.0)
    case Divide =>
      Prompt(Divide, RoundTo(Dividend(d), Cents), d.tenths2 as real / 10.0)
  }

  /** The exact dividend `num2 * result` of a division, before it is printed. */
  function Dividend(d: Draws): real {
    (d.tenths2 * d.quotientCents) as real / 1000.0
  }

  /** The correct answer in hundredths. */
  function AnswerCents(d: Draws): int {
    match d.op
    case Add => d.cents1 + d.cents2
    case Subtract => if d.cents1 < d.cents2 then d.cents2 - d.cents1 else d.cents1 - d.cents2
    case Multiply => d.tenths1 * d.tenths2
    case Divide => d.quotientCents
  }

  function Answer(d: Draws): real {
    AnswerCents(d) as real / 100.0
  }

  /**
   * The answer is the value of the displayed expression; a difference lists the larger
   * operand first and so is never negative; a quotient times the divisor is the shown
   * dividend up to the half cent that printing it with `:.2f` rounds away.
   */
  lemma AnswerIsValueOfShown(d: Draws)
    ensures var p := Shown(d);
      match p.op
      case Add => Answer(d) == p.left + p.right
      case Subtract => Answer(d) == p.left - p.right && p.left >= p.right
      case Multiply => Answer(d) == p.left * p.right
      case Divide => -0.005 <= Answer(d) * p.right - p.left <= 0.005
  {
    var p := Shown(d);
    match d.op
    case Add =>
    case Subtract =>
    case Multiply =>
      var a, b := d.tenths1 as real, d.tenths2 as real;
      assert (d.tenths1 * d.tenths2) as real == a * b;
      assert (a * b) / 100.0 == (a / 10.0) * (b / 10.0);
    case Divide =>
      var q, b := d.quotientCents as real, d.tenths2 as real;
      assert (d.tenths2 * d.quotientCents) as real == b * q;
      assert (q / 100.0) * (b / 10.0) == (b * q) / 1000.0;
      RoundClose(Dividend(d), Cents);
  }

  /** When `num2 * result` is a whole number of hundredths, the shown dividend is exact. */
  lemma DividendExactOnGrid(d: Draws)
    requires d.op == Divide && (d.tenths2 * d.quotientCents) % 10 == 0
    ensures Answer(d) * Shown(d).right == Shown(d).left
  {
    var n := (d.tenths2 * d.quotientCents) / 10;
    assert n * 10 == d.tenths2 * d.quotientCents;
    assert Dividend(d) == n as real / Scale(Cents);
    RoundOnGrid(n, Cents);
    var q, b := d.quotientCents as real, d.tenths2 as real;
    assert (d.tenths2 * d.quotientCents) as real == b * q;
    assert (q / 100.0) * (b / 10.0) == (b * q) / 1000.0;
  }

  /** Divisor 1.5 and quotient 1.01: the dividend 1.515 is shown as 1.52, not as the exact product. */
  lemma DividendShownRounded(d: Draws)
    requires d == Draws(Divide, 100, 100, 10, 15, 101)
    ensures Valid(d) && Shown(d) == Prompt(Divide, 1.52, 1.5)
    ensures Answer(d) * Shown(d).right == 1.515 != Shown(d).left
  {
    assert Dividend(d) * 100.0 == 151.5;
    assert (151.5).Floor == 151;
  }

  /** Only a difference of equal operands can give zero; every other answer is positive. */
  lemma AnswerPositive(d: Draws)
    requires Valid(d)
    ensures Answer(d) >= 0.0
    ensures Answer(d) == 0.0 <==> d.op == Subtract && d.cents1 == d.cents2
  {
    if d.op == Multiply {
      assert d.tenths1 * d.tenths2 >= 10 * d.tenths2 >= 100;
    }
  }

  /** The distractor draws `round(correct + uniform(-5, 5), 2)`, each an offset in hundredths. */
  function Candidates(correct: int, offsets: seq<int>): (c: seq<Choice>)
    ensures |c| == |offsets|
  {
    seq(|offsets|, k requires 0 <= k < |offsets| => Number((correct + offsets[k]) as real / 100.0))
  }

  predicate ValidOffsets(offsets: seq<int>) {
    forall k :: 0 <= k < |offsets| ==> -500 <= offsets[k] <= 500
  }

  /**
   * `generate_decimal_question`: four distinct options, the answer at `correctIndex`,
   * every other option positive and within 5 of the answer.
   */
  method Generate(d: Draws, offsets: seq<int>, js: seq<nat>) returns (r: Result<MultipleChoice, Failure>)
    requires Valid(d) && ValidOffsets(offsets) && ValidSwaps(4, js)
    ensures r.Ok? <==> |Collect([Number(Answer(d))], Candidates(AnswerCents(d), offsets), true)| == 4
    ensures r.Ok? ==> |r.value.options| == 4 && Distinct(r.value.options)
    ensures r.Ok? ==> r.value.correctIndex < 4 && r.value.options[r.value.correctIndex] == Number(Answer(d))
    ensures r.Ok? ==> forall i :: 0 <= i < 4 && i != r.value.correctIndex ==>
      r.value.options[i].Number? && r.value.options[i].value > 0.0 &&
      -5.0 <= r.value.options[i].value - Answer(d) <= 5.0
  {
    var correct := AnswerCents(d);
    var candidates := Candidates(correct, offsets);
    r := Assemble(Number(Answer(d)), candidates, true, js);
    if r.Ok? {
      forall i | 0 <= i < 4 && i != r.value.correctIndex
        ensures r.value.options[i].Number? && -5.0 <= r.value.options[i].value - Answer(d) <= 5.0
      {
        var k :| 0 <= k < |candidates| && candidates[k] == r.value.options[i];
        assert r.value.options[i].value - Answer(d) == offsets[k] as real / 100.0;
      }
    }
  }
}
