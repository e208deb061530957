/**
 * `MathGame.generate_fraction_question`: one of four operations on two fractions,
 * answered with the exact value (Python divides the integers as floats; here the
 * division is exact on `real`).
 */
module FractionQuestion {
  import opened Wrappers
  import opened Choices

  datatype Operation = Add | Subtract | Multiply | Divide

  /**
   * The random draws. For `Add` and `Subtract` both fractions share `denom1` and
   * `denom2` is not drawn; for `Multiply` and `Divide` every field is drawn.
   */
  datatype Draws = Draws(op: Operation, num1: int, denom1: int, num2: int, denom2: int)

  /** The fractions as the question text shows them: `num1/denom1 op num2/denom2`. */
  datatype Prompt = Prompt(op: Operation, num1: int, denom1: int, num2: int, denom2: int)

  /** Denominators `random.choice` picks from for a shared-denominator sum or difference. */
  const SharedDenominators: set<int> := {2, 3, 4, 5, 6, 8, 10, 12}

  /** Denominators `random.choice` picks from for a product or quotient. */
  const FactorDenominators: set<int> := {2, 3, 4, 5}

  /** The values `randint` and `choice` can produce for each operation. */
  predicate Valid(d: Draws)
    ensures Valid(d) ==> Defined(d)
  {
    match d.op
    case Add | Subtract =>
      d.denom1 in SharedDenominators && 1 <= d.num1 <= d.denom1 - 1 && 1 <= d.num2 <= d.denom1 - 1
    case Multiply | Divide =>
      1 <= d.num1 <= 5 && 1 <= d.num2 <= 5 && d.denom1 in FactorDenominators && d.denom2 in FactorDenominators
  }

  /** No denominator of the computation is zero; every valid draw satisfies this. */
  predicate Defined(d: Draws) {
    d.denom1 != 0 && (d.op == Multiply || d.op == Divide ==> d.denom2 != 0 && d.num2 != 0)
  }

  /** The question as displayed; a difference lists the larger numerator first. */
  function Shown(d: Draws): Prompt
  {
    match d.op
    case Add => Prompt(Add, d.num1, d.denom1, d.num2, d.denom1)
    case Subtract =>
      if d.num1 < d.num2 then Prompt(Subtract, d.num2, d.denom1, d.num1, d.denom1)
      else Prompt(Subtract, d.num1, d.denom1, d.num2, d.denom1)
    case Multiply => Prompt(Multiply, d.num1, d.denom1, d.num2, d.denom2)
    case Divide => Prompt(Divide, d.num1, d.denom1, d.num2, d.denom2)
  }

  /** The correct answer, computed the way the source computes `result`. */
  function Answer(d: Draws): real
    requires Defined(d)
  {
    match d.op
    case Add => (d.num1 + d.num2) as real / d.denom1 as real
    case Subtract =>
      var hi, lo := if d.num1 < d.num2 then d.num2 else d.num1, if d.num1 < d.num2 then d.num1 else d.num2;
      (hi - lo) as real / d.denom1 as real
    case Multiply => (d.num1 * d.num2) as real / (d.denom1 * d.denom2) as real
    case Divide => (d.num1 * d.denom2) as real / (d.denom1 * d.num2) as real
  }

  /** The exact value of the displayed expression, operating on the two fractions. */
  function Value(p: Prompt): real
    requires p.denom1 != 0 && p.denom2 != 0 && (p.op == Divide ==> p.num2 != 0)
  {
    var x := p.num1 as real / p.denom1 as real;
    var y := p.num2 as real / p.denom2 as real;
    match p.op
    case Add => x + y
    case Subtract => x - y
    case Multiply => x * y
    case Divide => x / y
  }

  /** Multiplying fractions multiplies numerators and denominators. */
  lemma ProductOfQuotients(a: real, b: real, c: real, e: real)
    requires c != 0.0 && e != 0.0
    ensures (a * b) / (c * e) == (a / c) * (b / e)
  {
    var x, y := a / c, b / e;
    assert x * c == a && y * e == b;
    calc {
      (x * y) * (c * e);
      (x * c) * (y * e);
      a * b;
    }
  }

  /** Dividing by a fraction multiplies by its reciprocal. */
  lemma QuotientOfQuotients(a: real, b: real, c: real, e: real)
    requires c != 0.0 && e != 0.0 && b != 0.0
    ensures (a * e) / (c * b) == (a / c) / (b / e)
  {
    ProductOfQuotients(a, e, c, b);
    var y := b / e;
    assert y * e == b && y != 0.0;
    assert (a / c) * (e / b) == (a / c) / y;
  }

  /** A displayed product or quotient equals the single quotient the source divides out. */
  lemma ValueByCrossMultiplying(p: Prompt)
    requires p.denom1 != 0 && p.denom2 != 0 && p.num2 != 0
    ensures p.op == Multiply ==> Value(p) == (p.num1 * p.num2) as real / (p.denom1 * p.denom2) as real
    ensures p.op == Divide ==> Value(p) == (p.num1 * p.denom2) as real / (p.denom1 * p.num2) as real
  {
    var n1, d1, n2, d2 := p.num1 as real, p.denom1 as real, p.num2 as real, p.denom2 as real;
    assert (p.num1 * p.num2) as real == n1 * n2 && (p.denom1 * p.denom2) as real == d1 * d2;
    assert (p.num1 * p.denom2) as real == n1 * d2 && (p.denom1 * p.num2) as real == d1 * n2;
    ProductOfQuotients(n1, n2, d1, d2);
    QuotientOfQuotients(n1, n2, d1, d2);
  }

  /** The recorded answer is the exact value of the question as displayed. */
  lemma AnswerIsValueOfShown(d: Draws)
    requires Defined(d)
    ensures var p := Shown(d); p.denom1 != 0 && p.denom2 != 0 && (p.op == Divide ==> p.num2 != 0)
    ensures Answer(d) == Value(Shown(d))
  {
    if d.op == Multiply || d.op == Divide {
      ValueByCrossMultiplying(Shown(d));
    }
  }

  /** A difference is never negative and stays below one: the numerators are reordered. */
  lemma SubtractInUnitInterval(d: Draws)
    requires Valid(d) && d.op == Subtract
    ensures Shown(d).num1 >= Shown(d).num2
    ensures 0.0 <= Answer(d) < 1.0
  {
  }

  /** A sum of two proper fractions with one denominator lies strictly between 0 and 2. */
  lemma AddBetweenZeroAndTwo(d: Draws)
    requires Valid(d) && d.op == Add
    ensures 0.0 < Answer(d) < 2.0
  {
  }

  /** The distractor draws: `correct + random.uniform(-0.5, 0.5)`, one per loop turn. */
  function Candidates(correct: real, offsets: seq<real>): (c: seq<Choice>)
    ensures |c| == |offsets|
  {
    seq(|offsets|, k requires 0 <= k < |offsets| => Number(correct + offsets[k]))
  }

  predicate ValidOffsets(offsets: seq<real>) {
    forall k :: 0 <= k < |offsets| ==> -0.5 <= offsets[k] <= 0.5
  }

  /**
   * `generate_fraction_question` up to the text formatting: four distinct options,
   * the exact answer at `correctIndex`, and every other option positive and within
   * one half of it.
   */
  method Generate(d: Draws, offsets: seq<real>, js: seq<nat>) returns (r: Result<MultipleChoice, Failure>)
    requires Valid(d) && ValidOffsets(offsets) && ValidSwaps(4, js)
    ensures r.Ok? <==> |Collect([Number(Answer(d))], Candidates(Answer(d), offsets), true)| == 4
    ensures r.Ok? ==> |r.value.options| == 4 && Distinct(r.value.options)
    ensures r.Ok? ==> r.value.correctIndex < 4 && r.value.options[r.value.correctIndex] == Number(Answer(d))
    ensures r.Ok? ==> forall i :: 0 <= i < 4 && i != r.value.correctIndex ==>
      r.value.options[i].Number? && r.value.options[i].value > 0.0 &&
      -0.5 <= r.value.options[i].value - Answer(d) <= 0.5
  {
    var correct := Answer(d);
    var candidates := Candidates(correct, offsets);
    r := Assemble(Number(correct), candidates, true, js);
    if r.Ok? {
      forall i | 0 <= i < 4 && i != r.value.correctIndex
        ensures r.value.options[i].Number? && -0.5 <= r.value.options[i].value - correct <= 0.5
      {
        var k :| 0 <= k < |candidates| && candidates[k] == r.value.options[i];
      }
    }
  }
}
