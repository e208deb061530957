/**
 * `MathGame.generate_ratio_question`: two integers from one of three stories, the
 * answer being their ratio reduced by `math.gcd` and written "a:b".
 */
module RatioQuestion {
  import opened Wrappers
  import opened Choices

  /** The three story templates, in the order the source lists them. */
  datatype Scenario = Recipe | Classroom | Trip

  /** The random draws: a template and two integers from `randint(2, 12)`. */
  datatype Draws = Draws(scenario: Scenario, num1: int, num2: int)

  /** The template and the two numbers filled into it, in that order. */
  datatype Prompt = Prompt(scenario: Scenario, first: int, second: int)

  predicate Valid(d: Draws) {
    2 <= d.num1 <= 12 && 2 <= d.num2 <= 12
  }

  function Shown(d: Draws): Prompt {
    Prompt(d.scenario, d.num1, d.num2)
  }

  /** `d` divides `n`. */
  predicate Divides(d: int, n: int) {
    d > 0 && n % d == 0
  }

  /** Euclid's algorithm, the value of Python's `math.gcd` on non-negative integers. */
  function Gcd(a: nat, b: nat): nat
    decreases b
  {
    if b == 0 then a else Gcd(b, a % b)
  }

  /** A positive number times a positive count is at least the number. */
  lemma {:induction false} MulAtLeast(a: int, b: int)
    requires a > 0 && b >= 1
    ensures a * b >= a
    decreases b
  {
    if b > 1 {
      MulAtLeast(a, b - 1);
      assert a * b == a * (b - 1) + a;
    }
  }

  lemma MultipleDivisible(d: int, x: int)
    requires d > 0
    ensures Divides(d, d * x)
  {
    var q, r := (d * x) / d, (d * x) % d;
    assert d * x == d * q + r && 0 <= r < d;
    assert d * (x - q) == r;
    if x - q > 0 {
      MulAtLeast(d, x - q);
    } else if x - q < 0 {
      MulAtLeast(d, q - x);
    }
  }

  lemma DivisibleIsMultiple(d: int, n: int)
    requires Divides(d, n)
    ensures n == d * (n / d)
  {
  }

  /** A divisor of a positive number is no larger than it. */
  lemma DivisorAtMost(d: int, n: int)
    requires Divides(d, n) && n > 0
    ensures d <= n
  {
    DivisibleIsMultiple(d, n);
    var q := n / d;
    if q >= 1 {
      MulAtLeast(d, q);
    } else {
      assert q <= 0;
      MulAtLeast(d, 1 - q);
    }
  }

  /** The gcd is positive and divides both arguments. */
  lemma {:induction false} GcdDividesBoth(a: nat, b: nat)
    requires a > 0 || b > 0
    ensures Gcd(a, b) > 0 && Divides(Gcd(a, b), a) && Divides(Gcd(a, b), b)
    decreases b
  {
    if b == 0 {
      MultipleDivisible(a, 0);
      MultipleDivisible(a, 1);
    } else {
      var g := Gcd(b, a % b);
      GcdDividesBoth(b, a % b);
      DivisibleIsMultiple(g, b);
      DivisibleIsMultiple(g, a % b);
      var m, n := b / g, (a % b) / g;
      assert a == b * (a / b) + a % b;
      calc {
        a;
        b * (a / b) + a % b;
        (g * m) * (a / b) + g * n;
        g * (m * (a / b) + n);
      }
      MultipleDivisible(g, m * (a / b) + n);
    }
  }

  /** Every common divisor of the arguments divides the gcd. */
  lemma {:induction false} GcdGreatest(a: nat, b: nat, d: int)
    requires Divides(d, a) && Divides(d, b)
    ensures Divides(d, Gcd(a, b))
    decreases b
  {
    if b != 0 {
      DivisibleIsMultiple(d, a);
      DivisibleIsMultiple(d, b);
      var p, q := a / d, b / d;
      assert a == b * (a / b) + a % b;
      calc {
        a % b;
        a - b * (a / b);
        d * p - (d * q) * (a / b);
        d * (p - q * (a / b));
      }
      MultipleDivisible(d, p - q * (a / b));
      GcdGreatest(b, a % b, d);
    }
  }

  /** Scaling both sides of a divisibility by a positive factor keeps it. */
  lemma ScaledDivides(c: int, d: int, x: int)
    requires c > 0 && Divides(d, x)
    ensures Divides(c * d, c * x)
  {
    DivisibleIsMultiple(d, x);
    assert c * x == (c * d) * (x / d);
    MultipleDivisible(c * d, x / d);
  }

  /** The reduced ratio `num1 // g : num2 // g` with `g = gcd(num1, num2)`. */
  function Answer(d: Draws): Choice
    requires Valid(d)
  {
    GcdDividesBoth(d.num1, d.num2);
    var g := Gcd(d.num1, d.num2);
    RatioText(d.num1 / g, d.num2 / g)
  }

  /** Reducing is exact: `g` divides both numbers and the parts times `g` give them back. */
  lemma AnswerScalesBack(d: Draws)
    requires Valid(d)
    ensures var g := Gcd(d.num1, d.num2);
      g > 0 && Divides(g, d.num1) && Divides(g, d.num2) &&
      Answer(d).left * g == d.num1 && Answer(d).right * g == d.num2 &&
      Answer(d).left > 0 && Answer(d).right > 0
  {
    GcdDividesBoth(d.num1, d.num2);
    var g := Gcd(d.num1, d.num2);
    PartTimesDivisor(g, d.num1);
    PartTimesDivisor(g, d.num2);
    QuotientPositive(g, d.num1);
    QuotientPositive(g, d.num2);
  }

  lemma PartTimesDivisor(g: int, n: int)
    requires Divides(g, n)
    ensures (n / g) * g == n
  {
    DivisibleIsMultiple(g, n);
    assert (n / g) * g == g * (n / g);
  }

  /** Exchanging two factors of a product; kept apart so the proportion lemma stays linear. */
  lemma MulExchange(x: int, y: int, z: int)
    ensures x * (y * z) == y * (x * z)
  {
  }

  /** A positive multiple of a positive divisor leaves a positive quotient. */
  lemma QuotientPositive(g: int, a: int)
    requires Divides(g, a) && a > 0
    ensures a / g > 0
  {
    DivisibleIsMultiple(g, a);
    if a / g <= 0 {
      MulAtLeast(g, 1 - a / g);
    }
  }

  /** A positive factor that does not enlarge a positive number is 1. */
  lemma UnitFactor(g: int, h: int)
    requires g > 0 && h > 0 && g * h <= g
    ensures h == 1
  {
    if h > 1 {
      MulAtLeast(g, h - 1);
    }
  }

  /** Dividing two positive numbers by their gcd leaves parts whose gcd is 1. */
  lemma {:induction false} ReducedCoprime(a: nat, b: nat)
    requires a > 0 && b > 0
    ensures var g := Gcd(a, b);
      g > 0 && a / g > 0 && b / g > 0 && Gcd(a / g, b / g) == 1
  {
    GcdDividesBoth(a, b);
    var g := Gcd(a, b);
    QuotientPositive(g, a);
    QuotientPositive(g, b);
    var a', b' := a / g, b / g;
    GcdDividesBoth(a', b');
    var h := Gcd(a', b');
    assert Divides(g * h, a) by {
      ScaledDivides(g, h, a');
      DivisibleIsMultiple(g, a);
    }
    assert Divides(g * h, b) by {
      ScaledDivides(g, h, b');
      DivisibleIsMultiple(g, b);
    }
    GcdGreatest(a, b, g * h);
    DivisorAtMost(g * h, g);
    UnitFactor(g, h);
  }

  /** Reducing is complete: the two parts have no common divisor but 1. */
  lemma AnswerCoprime(d: Draws)
    requires Valid(d)
    ensures Answer(d).left > 0 && Answer(d).right > 0 && Gcd(Answer(d).left, Answer(d).right) == 1
  {
    ReducedCoprime(d.num1, d.num2);
  }

  /** The answer is in proportion to the numbers in the order the text lists them. */
  lemma AnswerInProportion(d: Draws)
    requires Valid(d)
    ensures Answer(d).left * Shown(d).second == Answer(d).right * Shown(d).first
  {
    AnswerScalesBack(d);
    var g := Gcd(d.num1, d.num2);
    var a', b' := Answer(d).left, Answer(d).right;
    MulExchange(a', b', g);
  }

  /**
   * The classroom story gives the class size first and the number of boys second,
   * and asks for boys to students, the reverse of the recorded `first:second`; the
   * asked ratio and the recorded one agree only when the two numbers are equal.
   */
  lemma ClassroomAnswerReversed(d: Draws)
    requires Valid(d) && d.scenario == Classroom
    ensures Answer(d) == RatioText(Answer(d).right, Answer(d).left) <==> Shown(d).first == Shown(d).second
  {
    AnswerScalesBack(d);
  }

  lemma ReduceEightTwelve()
    ensures Answer(Draws(Recipe, 8, 12)) == RatioText(2, 3)
  {
    assert Gcd(8, 12) == 4;
  }

  lemma ReduceSixNine()
    ensures Answer(Draws(Trip, 6, 9)) == RatioText(2, 3)
  {
    assert Gcd(6, 9) == 3;
  }

  lemma ReduceCoprime()
    ensures Answer(Draws(Recipe, 5, 7)) == RatioText(5, 7)
  {
    assert Gcd(5, 7) == 1;
  }

  /** The distractor draws `f"{randint(1, 15)}:{randint(1, 15)}"`, one pair per loop turn. */
  function Candidates(pairs: seq<(int, int)>): (c: seq<Choice>)
    ensures |c| == |pairs|
  {
    seq(|pairs|, k requires 0 <= k < |pairs| => RatioText(pairs[k].0, pairs[k].1))
  }

  predicate ValidPairs(pairs: seq<(int, int)>) {
    forall k :: 0 <= k < |pairs| ==> 1 <= pairs[k].0 <= 15 && 1 <= pairs[k].1 <= 15
  }

  /**
   * The guard compares texts only, so a distractor can be the unreduced form of the
   * answer: with 4 and 6 drawn, "4:6" is offered beside the correct "2:3".
   */
  lemma EquivalentDistractorAdmitted()
    ensures var d := Draws(Recipe, 4, 6);
      Answer(d) == RatioText(2, 3) &&
      Collect([Answer(d)], Candidates([(4, 6), (1, 1), (1, 2)]), false) ==
        [RatioText(2, 3), RatioText(4, 6), RatioText(1, 1), RatioText(1, 2)]
  {
    assert Gcd(4, 6) == 2;
    var c := Candidates([(4, 6), (1, 1), (1, 2)]);
    assert c == [RatioText(4, 6), RatioText(1, 1), RatioText(1, 2)];
  }

  /**
   * `generate_ratio_question`: four distinct ratio texts, the reduced ratio at
   * `correctIndex`, every other text made of two numbers from 1 to 15.
   */
  method Generate(d: Draws, pairs: seq<(int, int)>, js: seq<nat>) returns (r: Result<MultipleChoice, Failure>)
    requires Valid(d) && ValidPairs(pairs) && ValidSwaps(4, js)
    ensures r.Ok? <==> |Collect([Answer(d)], Candidates(pairs), false)| == 4
    ensures r.Ok? ==> |r.value.options| == 4 && Distinct(r.value.options)
    ensures r.Ok? ==> r.value.correctIndex < 4 && r.value.options[r.value.correctIndex] == Answer(d)
    ensures r.Ok? ==> forall i :: 0 <= i < 4 && i != r.value.correctIndex ==>
      r.value.options[i].RatioText? && 1 <= r.value.options[i].left <= 15 && 1 <= r.value.options[i].right <= 15
  {
    var candidates := Candidates(pairs);
    r := Assemble(Answer(d), candidates, false, js);
    if r.Ok? {
      forall i | 0 <= i < 4 && i != r.value.correctIndex
        ensures r.value.options[i].RatioText? && 1 <= r.value.options[i].left <= 15 && 1 <= r.value.options[i].right <= 15
      {
        var k :| 0 <= k < |candidates| && candidates[k] == r.value.options[i];
      }
    }
  }
}
