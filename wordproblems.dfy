/**
 * `MathGame.generate_word_problem`: one of three stories, each with three parameters
 * and an operation, answered with `round(result, 2)`.
 *
 * The source calls the operation with two arguments when the third parameter is 0
 * and with all three otherwise. The money story subtracts a price drawn up to 25 from
 * an amount drawn from 10, so its answer can be negative; when it is -10 or less no
 * distractor `round(correct + uniform(-10, 10), 2)` is positive and the source's loop
 * never ends (`MoneyLoopNeverEnds`).
 */
module WordProblem {
  import opened Wrappers
  import opened Choices
  import opened Rounding

  /**
   * The chosen story with its three `params`: whole numbers for the stickers and
   * apples stories, `float`s for the money story. The apples and money stories list 0
   * as their third parameter.
   */
  datatype Draws =
    | Stickers(start: int, givenAway: int, bought: int)
    | Apples(perDay: int, days: int, third: int)
    | Money(amount: real, price: real, zero: real)

  predicate Whole(x: real) {
    x.Floor as real == x
  }

  /**
   * The ranges drawn: `randint(20, 50)`, `randint(5, 15)`, `randint(8, 20)` for the
   * stickers; `randint(25, 75)`, `randint(3, 7)` for the apples; `uniform(10, 50)`,
   * `uniform(5, 25)` for the money.
   */
  predicate Valid(d: Draws) {
    match d
    case Stickers(a, b, c) => 20 <= a <= 50 && 5 <= b <= 15 && 8 <= c <= 20
    case Apples(a, b, c) => 25 <= a <= 75 && 3 <= b <= 7 && c == 0
    case Money(a, b, c) => 10.0 <= a <= 50.0 && 5.0 <= b <= 25.0 && c == 0.0
  }

  /**
   * The story as its text shows it: the money story prints its amounts with `:.2f`,
   * so they appear rounded to cents; the whole-number stories print their parameters.
   */
  function Shown(d: Draws): Draws {
    match d
    case Money(a, b, c) => Money(RoundTo(a, Cents), RoundTo(b, Cents), c)
    case _ => d
  }

  /** Only the money story is shown differently from its draws, each amount by at most half a cent. */
  lemma ShownNearDrawn(d: Draws)
    ensures !d.Money? ==> Shown(d) == d
    ensures d.Money? ==>
      Shown(d).Money? && Shown(d).zero == d.zero &&
      -0.005 <= Shown(d).amount - d.amount <= 0.005 && -0.005 <= Shown(d).price - d.price <= 0.005
  {
    if d.Money? {
      RoundClose(d.amount, Cents);
      RoundClose(d.price, Cents);
    }
  }

  /**
   * The story's operation as the source calls it. With a zero third parameter only
   * the first two are passed: the apples and money operations default the third to 0,
   * but the stickers operation needs all three and raises `TypeError`, given here as
   * `None`.
   */
  function Evaluate(d: Draws): Option<real> {
    match d
    case Stickers(a, b, c) => if c == 0 then None else Some((a - b + c) as real)
    case Apples(a, b, _) => Some((a * b) as real)
    case Money(a, b, _) => Some(a - b)
  }

  /** Every valid draw evaluates; the stickers story always takes the three-argument call. */
  lemma EvaluateDefined(d: Draws)
    requires Valid(d)
    ensures Evaluate(d).Some?
    ensures match d
      case Stickers(_, _, c) => c != 0 && 13.0 <= Evaluate(d).value <= 65.0
      case Apples(_, _, _) => 75.0 <= Evaluate(d).value <= 525.0
      case Money(_, _, _) => -15.0 <= Evaluate(d).value <= 45.0
  {
    if d.Apples? {
      ApplesBounds(d.perDay, d.days);
    }
  }

  lemma ApplesBounds(perDay: int, days: int)
    requires 25 <= perDay <= 75 && 3 <= days <= 7
    ensures 75 <= perDay * days <= 525
  {
    assert (perDay - 25) * days >= 0 && (75 - perDay) * days >= 0;
  }

  /** The operations other than the stickers' do not read the third parameter. */
  lemma ThirdParameterIgnored(d: Draws, third: int, zero: real)
    ensures d.Apples? ==> Evaluate(d) == Evaluate(d.(third := third))
    ensures d.Money? ==> Evaluate(d) == Evaluate(d.(zero := zero))
  {
  }

  /** A stickers draw without a third parameter fails, the source's `TypeError`. */
  lemma StickersNeedThird(d: Draws)
    requires d.Stickers?
    ensures Evaluate(d).None? <==> d.bought == 0
  {
  }

  /** The source's `correct`: the operation's value rounded to cents. */
  function Answer(d: Draws): real
    requires Valid(d)
  {
    EvaluateDefined(d);
    RoundTo(Evaluate(d).value, Cents)
  }

  /** The answer is on the cent grid and within half a cent of the exact result. */
  lemma AnswerNearResult(d: Draws)
    requires Valid(d)
    ensures Evaluate(d).Some?
    ensures -0.005 <= Answer(d) - Evaluate(d).value <= 0.005
    ensures Answer(d) == RoundTicks(Evaluate(d).value, Cents) as real / 100.0
  {
    EvaluateDefined(d);
    RoundClose(Evaluate(d).value, Cents);
  }

  /** The whole-number stories are answered exactly. */
  lemma WholeStoriesExact(d: Draws)
    requires Valid(d) && !d.Money?
    ensures Answer(d) == Evaluate(d).value
  {
    EvaluateDefined(d);
    var n := if d.Stickers? then d.start - d.givenAway + d.bought else d.perDay * d.days;
    assert Evaluate(d).value == n as real == (100 * n) as real / Scale(Cents);
    RoundOnGrid(100 * n, Cents);
    assert Answer(d) == RoundTo((100 * n) as real / Scale(Cents), Cents);
  }

  /**
   * The question shows the money amounts with two decimals, each rounded on its own,
   * so the answer can differ from the difference of the amounts shown: $10.006 less
   * $5.004 shows as $10.01 less $5.00 yet is answered 5.0.
   */
  lemma MoneyShownDiffers()
    ensures var d := Money(10.006, 5.004, 0.0);
      Valid(d) && Shown(d) == Money(10.01, 5.0, 0.0) && Answer(d) == 5.0 &&
      Answer(d) != Shown(d).amount - Shown(d).price
  {
    assert (10.006 * 100.0).Floor == 1000;
    assert (5.004 * 100.0).Floor == 500;
    assert ((10.006 - 5.004) * 100.0).Floor == 500;
  }

  /** The distractor draws `round(correct + uniform(-10, 10), 2)`, one per loop turn. */
  function Candidates(correct: real, uniforms: seq<real>): (c: seq<Choice>)
    ensures |c| == |uniforms|
  {
    seq(|uniforms|, k requires 0 <= k < |uniforms| => Number(RoundTo(correct + uniforms[k], Cents)))
  }

  predicate ValidUniforms(uniforms: seq<real>) {
    forall k :: 0 <= k < |uniforms| ==> -10.0 <= uniforms[k] <= 10.0
  }

  /** A candidate drawn around an answer of `n` cents is a whole number of cents within 10 of it. */
  lemma CandidateNear(n: int, u: real)
    requires -10.0 <= u <= 10.0
    ensures var correct := n as real / 100.0;
      var v := RoundTo(correct + u, Cents);
      -10.0 <= v - correct <= 10.0 && Whole(v * 100.0)
  {
    var correct := n as real / 100.0;
    assert (n - 1000) as real / 100.0 == correct - 10.0 && (n + 1000) as real / 100.0 == correct + 10.0;
    RoundStaysNear(n, 1000, correct + u, Cents);
    assert RoundTo(correct + u, Cents) * 100.0 == RoundTicks(correct + u, Cents) as real;
  }

  /**
   * A money answer of -10 or less leaves no positive candidate, so the loop adds
   * nothing whatever is drawn.
   */
  lemma MoneyLoopNeverEnds(d: Draws, uniforms: seq<real>)
    requires Valid(d) && d.Money? && d.amount - d.price <= -10.0 && ValidUniforms(uniforms)
    ensures Collect([Number(Answer(d))], Candidates(Answer(d), uniforms), true) == [Number(Answer(d))]
  {
    var correct := Answer(d);
    assert correct <= -10.0 by {
      RoundMonotone(d.amount - d.price, -10.0, Cents);
      RoundOnGrid(-1000, Cents);
    }
    var candidates := Candidates(correct, uniforms);
    forall k | 0 <= k < |candidates|
      ensures !Positive(candidates[k])
    {
      RoundNotPositive(correct + uniforms[k], Cents);
    }
    CollectNonePositive([Number(correct)], candidates);
  }

  /** The smallest amount and largest price give a money answer of -15. */
  lemma MoneyNegativeExample()
    ensures Valid(Money(10.0, 25.0, 0.0)) && Answer(Money(10.0, 25.0, 0.0)) == -15.0
  {
    RoundOnGrid(-1500, Cents);
  }

  /**
   * `generate_word_problem`: four distinct options, the rounded answer at
   * `correctIndex`, every other option a positive whole number of cents within 10 of it.
   */
  method Generate(d: Draws, uniforms: seq<real>, js: seq<nat>) returns (r: Result<MultipleChoice, Failure>)
    requires Valid(d) && ValidUniforms(uniforms) && ValidSwaps(4, js)
    ensures r.Ok? <==> |Collect([Number(Answer(d))], Candidates(Answer(d), uniforms), true)| == 4
    ensures r.Ok? ==> |r.value.options| == 4 && Distinct(r.value.options)
    ensures r.Ok? ==> r.value.correctIndex < 4 && r.value.options[r.value.correctIndex] == Number(Answer(d))
    ensures r.Ok? ==> forall i :: 0 <= i < 4 && i != r.value.correctIndex ==>
      r.value.options[i].Number? && r.value.options[i].value > 0.0 &&
      -10.0 <= r.value.options[i].value - Answer(d) <= 10.0 &&
      Whole(r.value.options[i].value * 100.0)
  {
    var correct := Answer(d);
    var candidates := Candidates(correct, uniforms);
    r := Assemble(Number(correct), candidates, true, js);
    AnswerNearResult(d);
    var n := RoundTicks(Evaluate(d).value, Cents);
    if r.Ok? {
      forall i | 0 <= i < 4 && i != r.value.correctIndex
        ensures r.value.options[i].Number? &&
          -10.0 <= r.value.options[i].value - correct <= 10.0 &&
          Whole(r.value.options[i].value * 100.0)
      {
        var k :| 0 <= k < |candidates| && candidates[k] == r.value.options[i];
        assert candidates[k] == Number(RoundTo(correct + uniforms[k], Cents));
        CandidateNear(n, uniforms[k]);
      }
    }
  }
}
