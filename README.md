# NJSLA Math Challenge: question generation and player scoring

This project models the core of a Streamlit math quiz for sixth graders (`app.py`).

## Question generators

The `MathGame` class has seven topic generators. Each one builds a question, a correct answer and four multiple-choice options. `get_random_question` picks the generator. The model covers:

- **The generators.** One module per topic: `FractionQuestion`, `DecimalQuestion`, `RatioQuestion`, `GeometryQuestion`, `AlgebraQuestion`, `StatisticsQuestion` and `WordProblem`.
  - Each module holds the random draws as a `Draws` record, with a `Valid` predicate giving the ranges `randint`, `choice` and `uniform` draw from.
  - It also holds the displayed question (`Shown`), the recorded answer (`Answer`) and the candidates the distractor loop draws.
  - Its `Generate` method follows the source generator step by step.
- **The shared tail of every generator** (module `Choices`):
  - The distractor loop `while len(options) < 4` is the method `FillOptions`, specified by the function `Collect`.
  - `random.shuffle` is the in-place Fisher-Yates method `Shuffle` on an array.
  - `options.index(correct)` is `IndexOf`.
  - `Assemble` chains the three.
- **Randomness is an input.** The loop reads a finite sequence of candidates, the values the source would draw, in order. The shuffle reads the swap indices its Fisher-Yates pass would draw. When the candidates run out before four options exist, a generator returns `Err(OutOfCandidates)`; the source would keep drawing.
- **Topic dispatch** (module `MathGame`):
  - the seven topic keys;
  - `get_random_question`, which honours a known key and otherwise draws a topic;
  - the question record;
  - grading by `list.index`.

## Player records

Module `Players` models the player records and the rules that update them:

- Joining the game, as the class `Roster` over the players dictionary.
- A quick-challenge answer: 10 points plus a speed bonus.
- The speed round, as the class `SpeedRound`, and its merge into the player's record.
- The accuracy display.
- The tournament leaderboard: a stable sort by descending score.

## Source behaviour reproduced as written

- **Algebra.** For `-` and `÷` the question shows `x - c = x_value` and `x ÷ c = x_value`, yet records `x_value` as the answer. That answer never solves the equation shown (`AlgebraQuestion.AnswerMissesMinusDividedBy`).
- **Statistics mode.** The "mode" is a random element appended to the data. It occurs at least twice, but it need not be the most frequent value (`StatisticsQuestion.ModeNotMostFrequent`).
- **Ratio distractors.** The guard compares texts, so the unreduced form of the answer can be offered as a wrong option, e.g. "4:6" beside "2:3".
- **Classroom ratio.** The classroom story asks for boys to students. The recorded ratio is in the other order.
- **Money story.**
  - The answer can be negative.
  - At -10 or less no distractor passes the `wrong > 0` guard, so the source's loop never ends (`WordProblem.MoneyLoopNeverEnds`).
  - The amounts shown are rounded separately from the answer.
- **Speed rounds** add answered questions but no correct answers.

## Rounding

Python's `round(x, n)` is modelled on exact reals, half to even, for the two places the game uses (`Rounding`).

## Model

| member | source | states |
|---|---|---|
| Choices.Collect | app.py:76-80 | the list the distractor loop ends with: each draw in turn is appended when it passes the guard (`wrong > 0` where the topic has it, and not already listed), until four entries exist or the draws run out |
| Choices.CollectExtends | app.py:76-80 | the distractor loop only appends to the list it starts from and never grows it past four entries |
| Choices.CollectAdmitted | app.py:76-80 | starting from distinct options, the loop keeps them pairwise distinct, and every appended entry is one of the draws that passed the guard (`wrong > 0` where the topic has it) |
| Choices.CollectExhausted | app.py:76-80 | if the draws run out before four options exist, every draw is refused by the guard against the final list, so no usable draw was skipped |
| Choices.CollectNonePositive | app.py:341-346 | under the `wrong > 0` guard, draws that are all non-positive append nothing, so the list stays as it started |
| Choices.FillOptions | app.py:75-80 | the loop returns a list exactly when the draws yield four options; that list starts with the correct answer, has four pairwise-distinct entries, and its other three are draws that passed the guard and differ from the correct answer |
| Choices.SwapPermutes | app.py:82 | one Fisher-Yates exchange keeps the multiset of entries |
| Choices.ShuffleStepsPermutes | app.py:82 | any number of Fisher-Yates exchanges is a permutation of the list |
| Choices.ShuffleStepsDistinct | app.py:82 | shuffling keeps a list of distinct entries distinct |
| Choices.Shuffle | app.py:82 | `random.shuffle` in place: the array ends as the Fisher-Yates exchanges of its old contents dictate, a permutation of them |
| Choices.IndexOf | app.py:83 | `list.index`: `None` exactly when the value is absent, otherwise the first position holding it |
| Choices.Assemble | app.py:75-83 | fill, shuffle and index: succeeds exactly when the loop completes; then four distinct options that permute the filled list, with the correct answer at `correctIndex` and every other option a guarded draw different from it |
| FractionQuestion.Valid | app.py:45-72 | every drawn fraction question has non-zero denominators (and a non-zero divisor) |
| FractionQuestion.Shown | app.py:47-72 | the displayed fractions: one denominator for a sum or difference, the larger numerator first in a difference, two fractions for a product or quotient |
| FractionQuestion.Answer | app.py:47-72 | the source's `result`: `(num1 + num2) / denom`, the swapped difference over `denom`, `(num1 * num2) / (denom1 * denom2)` or `(num1 * denom2) / (denom1 * num2)` |
| FractionQuestion.Value | app.py:47-72 | an independent evaluation of a displayed expression, operating on the two fractions as values |
| FractionQuestion.ValueByCrossMultiplying | app.py:62-72 | the source's single quotient for `×` and `÷` equals the product or quotient of the two displayed fractions |
| FractionQuestion.AnswerIsValueOfShown | app.py:47-72 | the recorded answer is the exact value of the expression as displayed (after the numerators of a difference are swapped) |
| FractionQuestion.SubtractInUnitInterval | app.py:56-60 | a difference shows the larger numerator first, and its answer lies in [0, 1) |
| FractionQuestion.AddBetweenZeroAndTwo | app.py:52-54 | a sum of two proper fractions with one denominator lies strictly between 0 and 2 |
| FractionQuestion.Generate | app.py:44-90 | four distinct options, the exact answer at `correctIndex`, every other option positive and within 0.5 of it; fails only when the draws run out |
| DecimalQuestion.Shown | app.py:95-115 | the displayed operands: the two hundredths draws for a sum or difference (larger first in a difference), the two tenths draws for a product, and for a quotient the dividend `num2 * result` rounded to hundredths by `:.2f` beside the divisor |
| DecimalQuestion.Dividend | app.py:112-114 | the exact dividend `num2 * result` of a division, in thousandths |
| DecimalQuestion.Answer | app.py:95-117 | the source's `round(result, 2)`: the sum, the difference, the product, or the drawn quotient, on the hundredths grid |
| DecimalQuestion.AnswerIsValueOfShown | app.py:92-117 | the answer is the value of the displayed operation; a difference shows the larger operand first; a quotient times the divisor is within half a cent of the displayed dividend, which `:.2f` rounds |
| DecimalQuestion.DividendExactOnGrid | app.py:112-115 | when `num2 * result` is a whole number of hundredths, the quotient times the divisor is exactly the displayed dividend |
| DecimalQuestion.DividendShownRounded | app.py:112-115 | divisor 1.5 and quotient 1.01 show the dividend as 1.52, while the quotient times the divisor is 1.515 |
| DecimalQuestion.AnswerPositive | app.py:95-117 | the answer is never negative and is zero exactly for a difference of equal operands |
| DecimalQuestion.Generate | app.py:92-132 | four distinct options, the answer at `correctIndex`, every other option positive and within 5 of it |
| RatioQuestion.Gcd | app.py:145-147 | `math.gcd` by Euclid's algorithm |
| RatioQuestion.Answer | app.py:146-148 | the recorded ratio `num1 // g : num2 // g` with `g = gcd(num1, num2)` |
| RatioQuestion.GcdDividesBoth | app.py:146-147 | `gcd(num1, num2)` is positive and divides both numbers |
| RatioQuestion.GcdGreatest | app.py:146-147 | every common divisor divides the gcd |
| RatioQuestion.AnswerScalesBack | app.py:146-148 | the reduced parts are positive, and multiplying them by the gcd gives back `num1` and `num2` |
| RatioQuestion.ReducedCoprime | app.py:146-148 | dividing two positive numbers by their gcd leaves coprime parts |
| RatioQuestion.AnswerCoprime | app.py:146-148 | the recorded ratio is fully reduced: its parts have gcd 1 |
| RatioQuestion.AnswerInProportion | app.py:141-150 | the recorded ratio is proportional to the two numbers in the order the story shows them |
| RatioQuestion.ClassroomAnswerReversed | app.py:137-150 | in the classroom story, the boys-to-students ratio asked for equals the recorded ratio exactly when the two numbers are equal |
| RatioQuestion.ReduceEightTwelve | app.py:146-148 | 8 and 12 give "2:3" |
| RatioQuestion.ReduceSixNine | app.py:146-148 | 6 and 9 give "2:3" |
| RatioQuestion.ReduceCoprime | app.py:146-148 | 5 and 7 give "5:7" |
| RatioQuestion.EquivalentDistractorAdmitted | app.py:152-158 | the text-only guard admits "4:6" as a wrong option beside the correct "2:3" |
| RatioQuestion.Generate | app.py:134-168 | four distinct ratio texts, the reduced ratio at `correctIndex`, every other text made of two numbers from 1 to 15 |
| GeometryQuestion.Amount | app.py:174-201 | the formula of each figure: `length * width`, `0.5 * base * height`, `2 * (length + width)`, `length * width * height` |
| GeometryQuestion.AmountBounds | app.py:174-201 | each formula's value lies in the range the drawn dimensions allow, so it is positive |
| GeometryQuestion.TriangleHalvesRectangle | app.py:174-186 | `0.5 * base * height` is half the area of the rectangle with the same sides |
| GeometryQuestion.Generate | app.py:170-220 | four distinct options in the figure's unit, the formula's value at `correctIndex`, every amount positive and within 20 of it |
| AlgebraQuestion.Result | app.py:229-244 | the source's `result`: `x_value + constant` for `+` and `-`, `x_value * constant` for `*` and `÷` |
| AlgebraQuestion.Shown | app.py:229-244 | the displayed equation: `x + c = result`, `x - c = x_value`, `cx = result`, `x ÷ c = x_value` |
| AlgebraQuestion.Answer | app.py:246 | the recorded answer is always `x_value` |
| AlgebraQuestion.Solves | app.py:229-244 | an independent reading of what it means for a value to solve a displayed equation, dividing exactly |
| AlgebraQuestion.SolutionUnique | app.py:229-244 | a displayed one-step equation with a non-zero constant has at most one solution |
| AlgebraQuestion.AnswerSolvesPlusTimes | app.py:229-240 | for `+` and `*` the recorded `x_value` solves the displayed equation |
| AlgebraQuestion.AnswerMissesMinusDividedBy | app.py:233-246 | for `-` and `÷` the recorded `x_value` never solves the displayed equation; the unused `result` does |
| AlgebraQuestion.PlusExample | app.py:229-232 | drawing 7 and 5 shows `x + 5 = 12` and records 7 |
| AlgebraQuestion.Generate | app.py:222-261 | four distinct whole numbers from 1 to 30, `x_value` at `correctIndex` |
| StatisticsQuestion.Shown | app.py:265-288 | the dataset the text shows: the drawn data, with the picked element appended for a mode question |
| StatisticsQuestion.Max | app.py:287 | `max(data)` is an element no element exceeds |
| StatisticsQuestion.Min | app.py:287 | `min(data)` is an element no element undercuts |
| StatisticsQuestion.Sort | app.py:273 | `sorted(data)` is ascending and a permutation of the data |
| StatisticsQuestion.AscendingUnique | app.py:273 | two ascending arrangements of the same multiset are equal, so the sorted data is determined by the data |
| StatisticsQuestion.MeanOf | app.py:270 | `sum(data) / len(data)` |
| StatisticsQuestion.MedianOf | app.py:272-278 | the middle of `sorted(data)`, or the mean of its two middle entries when the length is even |
| StatisticsQuestion.RangeOf | app.py:287 | `max(data) - min(data)` |
| StatisticsQuestion.Answer | app.py:269-287 | the recorded `correct` for each kind: mean, median, the picked mode value, or range |
| StatisticsQuestion.MeanBetween | app.py:270 | the mean lies between the smallest and largest element |
| StatisticsQuestion.RangeIsLargestGap | app.py:287 | the range is not negative and is the largest difference between two elements |
| StatisticsQuestion.CountPermutation | app.py:273 | reordering the data does not change how many elements lie on one side of a value |
| StatisticsQuestion.MiddleHalves | app.py:274-278 | the middle of ascending data (or the mean of its two middle entries) has at least half the entries on each side |
| StatisticsQuestion.MedianHalves | app.py:272-278 | at least half the data is at most the median and at least half is at least it |
| StatisticsQuestion.MedianOfOddIsElement | app.py:277-278 | an odd-sized dataset's median is one of its elements |
| StatisticsQuestion.MedianOrderFree | app.py:272-278 | the median depends only on the multiset of the data |
| StatisticsQuestion.MedianFromArrangement | app.py:272-278 | the median is the middle of any ascending arrangement of the data |
| StatisticsQuestion.ModeRepeated | app.py:280-284 | the recorded mode is a whole number in the shown data and occurs there at least twice |
| StatisticsQuestion.ModeNotMostFrequent | app.py:280-285 | with data 10, 10, 10, 20, 30 and 20 picked, the recorded mode 20 occurs twice while 10 occurs three times |
| StatisticsQuestion.MeanExample | app.py:270 | 10, 20, 20, 30, 40 has mean 24 |
| StatisticsQuestion.MedianExample | app.py:272-278 | any arrangement of 10, 20, 20, 30, 40, such as 30, 20, 40, 10, 20, has median 20 |
| StatisticsQuestion.RangeExample | app.py:287 | 10, 20, 20, 30, 40 has range 30 |
| StatisticsQuestion.RoundTenths | app.py:294 | a value rounded to one place is a whole number of tenths |
| StatisticsQuestion.Generate | app.py:263-309 | four distinct options and the answer at `correctIndex`. Every other option is positive. For mean and median it lies within 5.05 of the answer on the tenths grid; for mode and range it differs from the answer by a whole number from -10 to 10 |
| Rounding.RoundTo | app.py:340 | `round(x, n)` for one or two places: the nearest multiple of the last kept place, a tie going to the even multiple |
| Rounding.HalfEvenMonotone | app.py:340 | rounding to a whole number, ties to even, never reverses the order of two values |
| Rounding.RoundClose | app.py:340 | `round(x, n)` moves `x` by at most half a unit of the last kept place |
| Rounding.RoundOnGrid | app.py:340 | a value already on the grid is left unchanged |
| Rounding.RoundIdempotent | app.py:340 | rounding twice to the same place is rounding once |
| Rounding.RoundMonotone | app.py:340 | rounding never reverses the order of two values |
| Rounding.RoundStaysNear | app.py:344 | a value within a grid distance of a grid point rounds to within that distance |
| Rounding.RoundNotPositive | app.py:344-345 | a value that is not positive does not round to a positive one |
| WordProblem.Shown | app.py:312-334 | the story as its text shows it: the whole-number parameters as drawn, the money amounts rounded to cents by `:.2f` |
| WordProblem.ShownNearDrawn | app.py:323-334 | only the money story is shown differently from its draws, each amount within half a cent of the drawn one |
| WordProblem.Evaluate | app.py:312-338 | the story's operation called as the source calls it: two arguments when the third parameter is 0, three otherwise; `None` where the stickers operation raises `TypeError` |
| WordProblem.Answer | app.py:332-340 | the source's `correct`: the operation's value rounded to cents |
| WordProblem.EvaluateDefined | app.py:312-338 | every drawn story evaluates: stickers in [13, 65] through the three-argument call, apples in [75, 525], money in [-15, 45] |
| WordProblem.ThirdParameterIgnored | app.py:319-326 | the apples and money operations do not read their third parameter |
| WordProblem.StickersNeedThird | app.py:332-338 | the stickers operation fails (the source's `TypeError`) exactly when its third parameter is 0 |
| WordProblem.AnswerNearResult | app.py:340 | the answer is on the cent grid and within half a cent of the operation's value |
| WordProblem.WholeStoriesExact | app.py:313-340 | the stickers and apples stories are answered exactly |
| WordProblem.MoneyShownDiffers | app.py:323-340 | amounts 10.006 and 5.004 are shown as 10.01 and 5.00, yet the answer is 5.0, not the difference of the shown amounts |
| WordProblem.MoneyNegativeExample | app.py:323-340 | amount 10 and price 25 give the answer -15 |
| WordProblem.CandidateNear | app.py:343-344 | a distractor drawn around an answer on the cent grid is a whole number of cents within 10 of it |
| WordProblem.MoneyLoopNeverEnds | app.py:341-346 | a money answer of -10 or less admits no distractor whatever is drawn, so the loop cannot finish |
| WordProblem.Generate | app.py:311-356 | four distinct options and the rounded answer at `correctIndex`. Every other option is a positive whole number of cents within 10 of the answer |
| MathGame.TopicNamed | app.py:34-42 | looking a key up finds only the topic with that key |
| MathGame.NameRoundTrip | app.py:34-42 | every topic is found under its own key, so the seven keys are distinct |
| MathGame.TopicsComplete | app.py:34-42 | the list `random.choice` draws from holds each of the seven topics exactly once |
| MathGame.ChooseTopic | app.py:358-363 | the topic `get_random_question` uses: the requested one when it is a non-empty key, otherwise the drawn one |
| MathGame.ChooseRequested | app.py:358-360 | a known key is honoured whatever was drawn |
| MathGame.ChooseFallsBack | app.py:361-363 | no key, or an unknown key, falls back to the drawn topic without an error |
| MathGame.EmptyIsNoKey | app.py:359 | the empty string is not a key, so the truthiness test changes nothing |
| MathGame.Generate | app.py:34-42 | calling a topic's generator returns its prompt, four distinct options with the correct answer at `correctIndex`, and the topic's key; it fails exactly when that generator's loop cannot complete |
| MathGame.GetRandomQuestion | app.py:358-363 | the returned record carries the chosen topic's key, which is the requested key when it is known, and the generator's guarantees on the options |
| MathGame.Grade | app.py:507-508 | grading is defined exactly when the selected option is among the options (`ValueError` otherwise) |
| MathGame.FirstIndex | app.py:507 | `list.index` gives the first position holding the value |
| MathGame.GradeByValue | app.py:507-508 | with distinct options, a submission is correct exactly when it is the option at `correctIndex` |
| Players.Consistent | app.py:380-394 | the invariant of a record the game writes: counts and score not negative, no more correct answers than answered questions |
| Players.Fresh | app.py:382-387 | a new player's record is consistent and carries the join time |
| Players.Accuracy | app.py:400 | the accuracy shown for a consistent record lies between 0 and 100 percent |
| Players.SpeedRoundNeverRaisesAccuracy | app.py:600-601 | a speed-round merge never raises the accuracy shown |
| Players.SpeedBonus | app.py:515 | `max(0, 5 - int(t))` is between 0 and 5, is 5 exactly for an answer within the first second, and is 0 exactly from 5 seconds on |
| Players.SpeedBonusNonIncreasing | app.py:515 | a slower answer never earns a larger bonus |
| Players.AnswerPoints | app.py:515-516 | a correct answer is worth 10 to 15 points |
| Players.AfterAnswer | app.py:511-517 | the record after one submission: one more answered question, and when correct one more correct answer and `10 + speed_bonus` more points |
| Players.AfterAnswerCounts | app.py:511-517 | every submission adds one answered question; a correct one also adds one correct answer and 10 to 15 points; a wrong one changes nothing else |
| Players.AfterAnswerConsistent | app.py:511-517 | a submission keeps `correct_answers <= questions_answered` and never lowers the score |
| Players.AfterSpeedRound | app.py:599-601 | the record after a speed round: the round's score and question count added, correct answers unchanged |
| Players.AfterSpeedRoundConsistent | app.py:580-601 | merging a round with `hits` correct out of `questions` adds `5 * hits` points and `questions` answers, leaves `correct_answers` alone, and keeps the record consistent |
| Players.Remaining | app.py:563-566 | time remains exactly while fewer than 60 seconds have elapsed, and never more than 60 |
| Players.Leaderboard | app.py:617-618 | the leaderboard is a permutation of the players, in descending order of score |
| Players.LeaderboardStable | app.py:617-618 | players with equal scores keep their order in the players dictionary (Python's sort is stable) |
| Players.Roster.constructor | app.py:19-23 | a session starts with the loaded players, whatever their counters hold, in the file's key order, and no current player |
| Players.Roster.Join | app.py:380-394 | an empty name changes nothing; a new name gets a fresh record appended; a known name keeps its record; either becomes the current player; if every record was consistent, every record still is |
| Players.Roster.SubmitAnswer | app.py:503-517 | a known player's record becomes the updated record and the points earned are returned; an unknown name (the source's `KeyError`) changes nothing; if every record was consistent, every record still is |
| Players.Roster.MergeSpeedRound | app.py:599-601 | a known player's record gains the round's score and question count; an unknown name changes nothing; if every record was consistent, every record still is |
| Players.Roster.Items | app.py:617 | `players.items()` lists every player with their record, in insertion order |
| Players.Roster.Tournament | app.py:609-618 | fewer than two players give no leaderboard; otherwise the leaderboard of all players |
| Players.SpeedRound.constructor | app.py:551-552 | a new speed round is inactive and empty |
| Players.SpeedRound.Start | app.py:555-560 | starting sets the round active with nothing scored |
| Players.SpeedRound.Submit | app.py:576-582 | a submission adds one question, plus 5 points when correct, keeping the score at 5 per correct answer |
| Players.SpeedRound.Finish | app.py:590-601 | when time is up the round ends and its score and question count are merged into the player's record, leaving every other record unchanged and every record consistent if all were |

## Left out

- Streamlit presentation: page setup, widgets, buttons, reruns, balloons, messages and the question text templates. A prompt keeps the numbers the text shows: a division's dividend and the money amounts are rounded to cents, as `:.2f` prints them.
- Persistence: `load_players` and `add_or_update_player` in `shared_state.py` (JSON file, atomic rename, lock). The players loaded at session start are a parameter of `Players.Roster.constructor`.
- Players.Roster.constructor: the loaded file is modelled as records of the game's own shape (four fields of the right types) with the dict's keys in their stored order; `load_players` checks neither. Record consistency is not assumed: the methods promise to keep it only where it held before.
- `game_features.py`: navigation, analytics charts, help text and reset. These are presentation only.
- Binary floating point. Every value is an exact real.
  - The decimal operands are taken as exact hundredths and tenths; the `:.2f` of a division's dividend is rounded half to even on the exact value.
  - The money story's amounts and `round` are taken on exact values, not on the nearest binary double.
- Fraction option formatting (`f"{opt:.3f}"`), which can make two distinct options display alike. `FractionQuestion.Generate` states distinctness of the values, not of the displayed texts.
- Termination of the unbounded distractor loops. The loops run over a finite candidate sequence, and running out is the result `Err(OutOfCandidates)`.
- Wall-clock time. Elapsed time is a whole number of seconds, the `int(time_taken)` of the quick challenge. `Players.Remaining` does not model fractional seconds left.
- The new question drawn after each speed-round submission. Its grading is `MathGame.Grade`.
