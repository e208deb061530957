/**
 * `MathGame`: the table of seven topics, `get_random_question`, and the question
 * record a generator returns.
 */
module MathGame {
  import opened Wrappers
  import opened Choices
  import FractionQuestion
  import DecimalQuestion
  import RatioQuestion
  import GeometryQuestion
  import AlgebraQuestion
  import StatisticsQuestion
  import WordProblem

  datatype Topic = Fractions | Decimals | Ratios | Geometry | Algebra | Statistics | WordProblems

  /** The keys of `self.topics` in insertion order, the list `random.choice` draws from. */
  const Topics: seq<Topic> := [Fractions, Decimals, Ratios, Geometry, Algebra, Statistics, WordProblems]

  /** The key of a topic, which is also the `"topic"` field its generator returns. */
  function Name(t: Topic): string {
    match t
    case Fractions => "Fractions"
    case Decimals => "Decimals"
    case Ratios => "Ratios & Proportions"
    case Geometry => "Geometry"
    case Algebra => "Algebra"
    case Statistics => "Statistics"
    case WordProblems => "Word Problems"
  }

  /** Looking `name` up among the keys of `self.topics`. */
  function TopicNamed(name: string): (r: Option<Topic>)
    ensures r.Some? ==> Name(r.value) == name
  {
    if name == "Fractions" then Some(Fractions)
    else if name == "Decimals" then Some(Decimals)
    else if name == "Ratios & Proportions" then Some(Ratios)
    else if name == "Geometry" then Some(Geometry)
    else if name == "Algebra" then Some(Algebra)
    else if name == "Statistics" then Some(Statistics)
    else if name == "Word Problems" then Some(WordProblems)
    else None
  }

  /** Every topic is found under its own key, so the keys are distinct. */
  lemma NameRoundTrip(t: Topic)
    ensures TopicNamed(Name(t)) == Some(t)
  {
  }

  /** The draw list holds every topic exactly once. */
  lemma TopicsComplete()
    ensures |Topics| == 7 && Distinct(Topics)
    ensures forall t: Topic :: t in Topics
  {
    forall t: Topic
      ensures t in Topics
    {
      match t
      case Fractions => assert Topics[0] == t;
      case Decimals => assert Topics[1] == t;
      case Ratios => assert Topics[2] == t;
      case Geometry => assert Topics[3] == t;
      case Algebra => assert Topics[4] == t;
      case Statistics => assert Topics[5] == t;
      case WordProblems => assert Topics[6] == t;
    }
  }

  /**
   * The topic `get_random_question` uses: the requested one when it is a non-empty
   * key, otherwise the one at the drawn position of the key list.
   */
  function ChooseTopic(requested: Option<string>, drawn: nat): Topic
    requires drawn < |Topics|
  {
    if requested.Some? && requested.value != "" && TopicNamed(requested.value).Some? then
      TopicNamed(requested.value).value
    else
      Topics[drawn]
  }

  /** A requested key is honoured whatever was drawn. */
  lemma ChooseRequested(name: string, drawn: nat)
    requires drawn < |Topics| && TopicNamed(name).Some?
    ensures Name(ChooseTopic(Some(name), drawn)) == name
  {
  }

  /** No topic, an empty one or an unknown one falls back to the draw, without an error. */
  lemma ChooseFallsBack(requested: Option<string>, drawn: nat)
    requires drawn < |Topics|
    requires requested.None? || TopicNamed(requested.value).None?
    ensures ChooseTopic(requested, drawn) == Topics[drawn]
  {
  }

  /** The truthiness test on the topic changes nothing: the empty string is no key. */
  lemma EmptyIsNoKey()
    ensures TopicNamed("").None?
  {
  }

  /** What a question shows, without its text template. */
  datatype Prompt =
    | FractionPrompt(fraction: FractionQuestion.Prompt)
    | DecimalPrompt(decimal: DecimalQuestion.Prompt)
    | RatioPrompt(ratio: RatioQuestion.Prompt)
    | GeometryPrompt(figure: GeometryQuestion.Figure)
    | AlgebraPrompt(equation: AlgebraQuestion.Equation)
    | StatisticsPrompt(kind: StatisticsQuestion.Kind, data: seq<int>)
    | WordPrompt(story: WordProblem.Draws)

  /** The record a generator returns: question, options, correct index and topic key. */
  datatype Question = Question(prompt: Prompt, options: seq<Choice>, correctIndex: nat, topic: string)

  /**
   * The random draws of one generator call: the generator's own draws, the values the
   * distractor loop draws, in order (mode and range questions use `offsets`, mean and
   * median ones `uniforms`).
   */
  datatype QuestionDraws =
    | FractionDraws(fraction: FractionQuestion.Draws, fractionOffsets: seq<real>)
    | DecimalDraws(decimal: DecimalQuestion.Draws, decimalOffsets: seq<int>)
    | RatioDraws(ratio: RatioQuestion.Draws, pairs: seq<(int, int)>)
    | GeometryDraws(figure: GeometryQuestion.Figure, geometryOffsets: seq<int>)
    | AlgebraDraws(algebra: AlgebraQuestion.Draws, values: seq<int>)
    | StatisticsDraws(statistics: StatisticsQuestion.Draws, uniforms: seq<real>, offsets: seq<int>)
    | WordDraws(word: WordProblem.Draws, wordUniforms: seq<real>)

  function TopicOf(q: QuestionDraws): Topic {
    match q
    case FractionDraws(_, _) => Fractions
    case DecimalDraws(_, _) => Decimals
    case RatioDraws(_, _) => Ratios
    case GeometryDraws(_, _) => Geometry
    case AlgebraDraws(_, _) => Algebra
    case StatisticsDraws(_, _, _) => Statistics
    case WordDraws(_, _) => WordProblems
  }

  /** Every draw lies in the range its generator draws it from. */
  predicate ValidDraws(q: QuestionDraws) {
    match q
    case FractionDraws(d, o) => FractionQuestion.Valid(d) && FractionQuestion.ValidOffsets(o)
    case DecimalDraws(d, o) => DecimalQuestion.Valid(d) && DecimalQuestion.ValidOffsets(o)
    case RatioDraws(d, p) => RatioQuestion.Valid(d) && RatioQuestion.ValidPairs(p)
    case GeometryDraws(f, o) => GeometryQuestion.Valid(f) && GeometryQuestion.ValidOffsets(o)
    case AlgebraDraws(d, v) => AlgebraQuestion.Valid(d) && AlgebraQuestion.ValidValues(v)
    case StatisticsDraws(d, u, o) =>
      StatisticsQuestion.Valid(d) && StatisticsQuestion.ValidUniforms(u) && StatisticsQuestion.ValidOffsets(o)
    case WordDraws(d, u) => WordProblem.Valid(d) && WordProblem.ValidUniforms(u)
  }

  function PromptOf(q: QuestionDraws): Prompt
    requires ValidDraws(q)
  {
    match q
    case FractionDraws(d, _) => FractionPrompt(FractionQuestion.Shown(d))
    case DecimalDraws(d, _) => DecimalPrompt(DecimalQuestion.Shown(d))
    case RatioDraws(d, _) => RatioPrompt(RatioQuestion.Shown(d))
    case GeometryDraws(f, _) => GeometryPrompt(f)
    case AlgebraDraws(d, _) => AlgebraPrompt(AlgebraQuestion.Shown(d))
    case StatisticsDraws(d, _, _) => StatisticsPrompt(d.kind, StatisticsQuestion.Shown(d))
    case WordDraws(d, _) => WordPrompt(WordProblem.Shown(d))
  }

  /** The generator's `correct`. */
  function CorrectAnswer(q: QuestionDraws): Choice
    requires ValidDraws(q)
  {
    match q
    case FractionDraws(d, _) => Number(FractionQuestion.Answer(d))
    case DecimalDraws(d, _) => Number(DecimalQuestion.Answer(d))
    case RatioDraws(d, _) => RatioQuestion.Answer(d)
    case GeometryDraws(f, _) => GeometryQuestion.Answer(f)
    case AlgebraDraws(d, _) => Number(AlgebraQuestion.Answer(d) as real)
    case StatisticsDraws(d, _, _) => Number(StatisticsQuestion.Answer(d))
    case WordDraws(d, _) => Number(WordProblem.Answer(d))
  }

  /** The candidates the distractor loop sees, in order. */
  function CandidatesOf(q: QuestionDraws): seq<Choice>
    requires ValidDraws(q)
  {
    match q
    case FractionDraws(d, o) => FractionQuestion.Candidates(FractionQuestion.Answer(d), o)
    case DecimalDraws(d, o) => DecimalQuestion.Candidates(DecimalQuestion.AnswerCents(d), o)
    case RatioDraws(_, p) => RatioQuestion.Candidates(p)
    case GeometryDraws(f, o) => GeometryQuestion.Candidates(f, o)
    case AlgebraDraws(_, v) => AlgebraQuestion.Candidates(v)
    case StatisticsDraws(d, u, o) => StatisticsQuestion.Candidates(d, u, o)
    case WordDraws(d, u) => WordProblem.Candidates(WordProblem.Answer(d), u)
  }

  /** Whether the loop's guard asks for positive options (every topic but ratios and algebra). */
  function PositiveOnly(q: QuestionDraws): bool {
    !(q.RatioDraws? || q.AlgebraDraws?)
  }

  /** The distractor loop finds three distractors among the candidates drawn. */
  predicate Completes(q: QuestionDraws)
    requires ValidDraws(q)
  {
    |Collect([CorrectAnswer(q)], CandidatesOf(q), PositiveOnly(q))| == 4
  }

  /**
   * One generator call: the prompt, four distinct options with the correct answer at
   * `correctIndex`, and the generator's topic key.
   */
  method Generate(q: QuestionDraws, js: seq<nat>) returns (r: Result<Question, Failure>)
    requires ValidDraws(q) && ValidSwaps(4, js)
    ensures r.Ok? <==> Completes(q)
    ensures r.Ok? ==> r.value.topic == Name(TopicOf(q)) && r.value.prompt == PromptOf(q)
    ensures r.Ok? ==> |r.value.options| == 4 && Distinct(r.value.options)
    ensures r.Ok? ==> r.value.correctIndex < 4 && r.value.options[r.value.correctIndex] == CorrectAnswer(q)
  {
    var mc: Result<MultipleChoice, Failure>;
    match q {
      case FractionDraws(d, o) => mc := FractionQuestion.Generate(d, o, js);
      case DecimalDraws(d, o) => mc := DecimalQuestion.Generate(d, o, js);
      case RatioDraws(d, p) => mc := RatioQuestion.Generate(d, p, js);
      case GeometryDraws(f, o) => mc := GeometryQuestion.Generate(f, o, js);
      case AlgebraDraws(d, v) => mc := AlgebraQuestion.Generate(d, v, js);
      case StatisticsDraws(d, u, o) => mc := StatisticsQuestion.Generate(d, u, o, js);
      case WordDraws(d, u) => mc := WordProblem.Generate(d, u, js);
    }
    if mc.Ok? {
      r := Ok(Question(PromptOf(q), mc.value.options, mc.value.correctIndex, Name(TopicOf(q))));
    } else {
      r := Err(mc.error);
    }
  }

  /**
   * `get_random_question(topic)`: the generator of the chosen topic is called, and the
   * record it returns carries that topic's key (the requested key when there was one).
   */
  method GetRandomQuestion(requested: Option<string>, drawn: nat, q: QuestionDraws, js: seq<nat>)
    returns (r: Result<Question, Failure>)
    requires drawn < |Topics| && TopicOf(q) == ChooseTopic(requested, drawn)
    requires ValidDraws(q) && ValidSwaps(4, js)
    ensures r.Ok? <==> Completes(q)
    ensures r.Ok? ==> r.value.topic == Name(ChooseTopic(requested, drawn))
    ensures r.Ok? && requested.Some? && TopicNamed(requested.value).Some? ==> r.value.topic == requested.value
    ensures r.Ok? ==> |r.value.options| == 4 && Distinct(r.value.options)
    ensures r.Ok? ==> r.value.correctIndex < 4 && r.value.options[r.value.correctIndex] == CorrectAnswer(q)
  {
    r := Generate(q, js);
  }

  /**
   * Grading a submission: the index of the selected option (`list.index`, which raises
   * `ValueError` for a value not among the options) compared with `correctIndex`.
   */
  function Grade(q: Question, selected: Choice): (r: Option<bool>)
    ensures r.Some? <==> selected in q.options
  {
    if selected in q.options then Some(FirstIndex(q.options, selected) == q.correctIndex) else None
  }

  function FirstIndex(s: seq<Choice>, x: Choice): (i: nat)
    requires x in s
    ensures i < |s| && s[i] == x && x !in s[..i]
  {
    if s[0] == x then 0 else assert x in s[1..]; 1 + FirstIndex(s[1..], x)
  }

  /** With distinct options a submission is correct exactly when it is the correct option. */
  lemma GradeByValue(q: Question, selected: Choice)
    requires Distinct(q.options) && q.correctIndex < |q.options| && selected in q.options
    ensures Grade(q, selected) == Some(selected == q.options[q.correctIndex])
  {
    var i := FirstIndex(q.options, selected);
    if selected == q.options[q.correctIndex] {
      assert i == q.correctIndex;
    }
  }
}
