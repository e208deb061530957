/**
 * `MathGame.generate_algebra_question`: a one-step equation in `x` built around a
 * random value of `x`, which is recorded as the answer.
 *
 * For `+` and `*` the displayed equation has that value as its solution. For `-` and
 * `÷` the source displays `x - c = x_value` and `x ÷ c = x_value` while still
 * recording `x_value`; this model reproduces that and proves the recorded answer
 * never solves those two equations.
 */
module AlgebraQuestion {
  import opened Wrappers
  import opened Choices

  datatype Operation = Plus | Minus | Times | DividedBy

  /** The random draws: the operation, `x_value` and the constant. */
  datatype Draws = Draws(op: Operation, x: int, constant: int)

  /** The displayed equation: `x + c = rhs`, `x - c = rhs`, `cx = rhs` or `x ÷ c = rhs`. */
  datatype Equation = Equation(op: Operation, constant: int, rhs: int)

  /** `x_value` from `randint(1, 20)`; the constant from `randint(1, 30)` or `randint(2, 8)`. */
  predicate Valid(d: Draws) {
    1 <= d.x <= 20 &&
    if d.op == Plus || d.op == Minus then 1 <= d.constant <= 30 else 2 <= d.constant <= 8
  }

  /** The source's `result`: `x_value + constant` or `x_value * constant`. */
  function Result(d: Draws): int {
    if d.op == Plus || d.op == Minus then d.x + d.constant else d.x * d.constant
  }

  /** The equation as the question text shows it. */
  function Shown(d: Draws): Equation {
    match d.op
    case Plus => Equation(Plus, d.constant, Result(d))
    case Minus => Equation(Minus, d.constant, d.x)
    case Times => Equation(Times, d.constant, Result(d))
    case DividedBy => Equation(DividedBy, d.constant, d.x)
  }

  /** The recorded answer: always `x_value`. */
  function Answer(d: Draws): int {
    d.x
  }

  /** `v` satisfies the equation `e` (dividing exactly). */
  predicate Solves(e: Equation, v: real)
    requires e.constant != 0
  {
    var c, rhs := e.constant as real, e.rhs as real;
    match e.op
    case Plus => v + c == rhs
    case Minus => v - c == rhs
    case Times => c * v == rhs
    case DividedBy => v / c == rhs
  }

  /** A one-step equation with a non-zero constant has at most one solution. */
  lemma SolutionUnique(e: Equation, v: real, w: real)
    requires e.constant != 0 && Solves(e, v) && Solves(e, w)
    ensures v == w
  {
    var c := e.constant as real;
    match e.op
    case Plus =>
    case Minus =>
    case Times =>
      assert c * (v - w) == 0.0;
    case DividedBy =>
      assert (v / c) * c == v && (w / c) * c == w;
  }

  /** For `+` and `*` the recorded answer solves the displayed equation. */
  lemma AnswerSolvesPlusTimes(d: Draws)
    requires Valid(d) && (d.op == Plus || d.op == Times)
    ensures Solves(Shown(d), Answer(d) as real)
  {
    assert (d.x * d.constant) as real == d.constant as real * d.x as real;
  }

  /**
   * For `-` and `÷` the recorded answer never solves the displayed equation; its
   * solution is the source's unused `result`.
   */
  lemma AnswerMissesMinusDividedBy(d: Draws)
    requires Valid(d) && (d.op == Minus || d.op == DividedBy)
    ensures !Solves(Shown(d), Answer(d) as real)
    ensures Solves(Shown(d), Result(d) as real)
  {
    if d.op == DividedBy {
      var x, c := d.x as real, d.constant as real;
      assert (d.x * d.constant) as real == x * c;
      QuotientShrinks(x, c);
    }
  }

  /** Dividing a positive number by more than 1 makes it smaller, and undoes a multiplication. */
  lemma QuotientShrinks(x: real, c: real)
    requires x > 0.0 && c > 1.0
    ensures x / c < x && (x * c) / c == x
  {
    var q := x / c;
    assert q * c == x && q > 0.0;
    assert x - q == q * (c - 1.0);
    assert q * (c - 1.0) > 0.0;
  }

  /** The worked example: `x + 5 = 12` with answer 7. */
  lemma PlusExample()
    ensures Shown(Draws(Plus, 7, 5)) == Equation(Plus, 5, 12)
    ensures Answer(Draws(Plus, 7, 5)) == 7
  {
  }

  /** The distractor draws `randint(1, 30)`, one per loop turn. */
  function Candidates(values: seq<int>): (c: seq<Choice>)
    ensures |c| == |values|
  {
    seq(|values|, k requires 0 <= k < |values| => Number(values[k] as real))
  }

  predicate ValidValues(values: seq<int>) {
    forall k :: 0 <= k < |values| ==> 1 <= values[k] <= 30
  }

  /**
   * `generate_algebra_question`: four distinct whole numbers from 1 to 30, `x_value`
   * at `correctIndex`. The loop has no positivity guard here.
   */
  method Generate(d: Draws, values: seq<int>, js: seq<nat>) returns (r: Result<MultipleChoice, Failure>)
    requires Valid(d) && ValidValues(values) && ValidSwaps(4, js)
    ensures r.Ok? <==> |Collect([Number(Answer(d) as real)], Candidates(values), false)| == 4
    ensures r.Ok? ==> |r.value.options| == 4 && Distinct(r.value.options)
    ensures r.Ok? ==> r.value.correctIndex < 4 && r.value.options[r.value.correctIndex] == Number(Answer(d) as real)
    ensures r.Ok? ==> forall i :: 0 <= i < 4 ==>
      r.value.options[i].Number? && r.value.options[i].value.Floor as real == r.value.options[i].value &&
      1.0 <= r.value.options[i].value <= 30.0
  {
    var candidates := Candidates(values);
    r := Assemble(Number(Answer(d) as real), candidates, false, js);
    if r.Ok? {
      forall i | 0 <= i < 4 && i != r.value.correctIndex
        ensures r.value.options[i].Number? && r.value.options[i].value.Floor as real == r.value.options[i].value &&
          1.0 <= r.value.options[i].value <= 30.0
      {
        var k :| 0 <= k < |candidates| && candidates[k] == r.value.options[i];
      }
    }
  }
}
