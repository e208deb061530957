/**
 * The pattern every generator of `MathGame` shares: start the option list with the
 * correct answer, append randomly drawn distractors that pass the topic's guard until
 * there are four, shuffle the list in place, and record where the correct answer went.
 *
 * The random draws are inputs: the distractor loop consumes a finite sequence of
 * candidates (the values the source's `while len(options) < 4` loop would draw, in
 * order), and `random.shuffle` consumes the indices its Fisher-Yates pass would draw.
 */
module Choices {
  import opened Wrappers

  /** Units attached to a geometry answer. */
  datatype Unit = SquareUnits | Units | CubicUnits

  /** One displayed answer option. */
  datatype Choice =
    | Number(value: real)                // a numeric option
    | RatioText(left: int, right: int)   // the text "left:right"
    | Measure(amount: real, unit: Unit)  // the text "amount unit"

  /** Why a question could not be completed from the supplied draws. */
  datatype Failure =
    | OutOfCandidates  // the candidate draws ran out before four options were found

  /** The four shuffled options and the index of the correct one. */
  datatype MultipleChoice = MultipleChoice(options: seq<Choice>, correctIndex: nat)

  /** The numeric guard `wrong > 0`; the ratio loop applies no such guard, so a ratio text passes it. */
  predicate Positive(c: Choice) {
    match c
    case Number(v) => v > 0.0
    case RatioText(_, _) => true
    case Measure(a, _) => a > 0.0
  }

  /** The guard a drawn candidate must pass to be appended to `options`. */
  predicate Admits(options: seq<Choice>, c: Choice, positiveOnly: bool) {
    (!positiveOnly || Positive(c)) && c !in options
  }

  predicate Distinct<T(==)>(s: seq<T>) {
    forall i, j :: 0 <= i < j < |s| ==> s[i] != s[j]
  }

  /**
   * The list the distractor loop ends with: candidates are examined in order and
   * appended when admitted, until the list holds four entries or the draws run out.
   */
  function Collect(options: seq<Choice>, candidates: seq<Choice>, positiveOnly: bool): seq<Choice>
    decreases |candidates|
  {
    if |options| >= 4 || candidates == [] then options
    else if Admits(options, candidates[0], positiveOnly) then
      Collect(options + [candidates[0]], candidates[1..], positiveOnly)
    else
      Collect(options, candidates[1..], positiveOnly)
  }

  /** The loop never removes or reorders what is already in the list, and stops at four. */
  lemma {:induction false} CollectExtends(options: seq<Choice>, candidates: seq<Choice>, positiveOnly: bool)
    requires |options| <= 4
    ensures var r := Collect(options, candidates, positiveOnly);
      |options| <= |r| <= 4 && r[..|options|] == options
    decreases |candidates|
  {
    if |options| >= 4 || candidates == [] {
    } else if Admits(options, candidates[0], positiveOnly) {
      CollectExtends(options + [candidates[0]], candidates[1..], positiveOnly);
      var r := Collect(options, candidates, positiveOnly);
      assert r[..|options|] == (r[..|options| + 1])[..|options|];
    } else {
      CollectExtends(options, candidates[1..], positiveOnly);
    }
  }

  /** Every entry the loop appends is one of the draws and passed the guard; none repeats. */
  lemma {:induction false} CollectAdmitted(options: seq<Choice>, candidates: seq<Choice>, positiveOnly: bool)
    requires Distinct(options)
    ensures var r := Collect(options, candidates, positiveOnly);
      Distinct(r) &&
      forall i :: |options| <= i < |r| ==> r[i] in candidates && (positiveOnly ==> Positive(r[i]))
    decreases |candidates|
  {
    if |options| >= 4 || candidates == [] {
    } else if Admits(options, candidates[0], positiveOnly) {
      var next := options + [candidates[0]];
      assert Distinct(next);
      CollectAdmitted(next, candidates[1..], positiveOnly);
      var r := Collect(options, candidates, positiveOnly);
      forall i | |options| <= i < |r|
        ensures r[i] in candidates && (positiveOnly ==> Positive(r[i]))
      {
        if i == |options| {
          CollectExtends(next, candidates[1..], positiveOnly);
          assert r[i] == next[i];
        } else {
          assert r[i] in candidates[1..];
        }
      }
    } else {
      CollectAdmitted(options, candidates[1..], positiveOnly);
      var r := Collect(options, candidates, positiveOnly);
      forall i | |options| <= i < |r|
        ensures r[i] in candidates
      {
        assert r[i] in candidates[1..];
      }
    }
  }

  /**
   * When the draws run out before four options exist, no draw was wasted: every
   * candidate either failed the guard or is already in the list.
   */
  lemma {:induction false} CollectExhausted(options: seq<Choice>, candidates: seq<Choice>, positiveOnly: bool)
    requires |options| <= 4
    requires |Collect(options, candidates, positiveOnly)| < 4
    ensures forall c :: c in candidates ==> !Admits(Collect(options, candidates, positiveOnly), c, positiveOnly)
    decreases |candidates|
  {
    if |options| >= 4 || candidates == [] {
    } else {
      var rest := candidates[1..];
      var r := Collect(options, candidates, positiveOnly);
      var next := if Admits(options, candidates[0], positiveOnly) then options + [candidates[0]] else options;
      assert r == Collect(next, rest, positiveOnly);
      CollectExhausted(next, rest, positiveOnly);
      CollectExtends(next, rest, positiveOnly);
      forall c | c in candidates
        ensures !Admits(r, c, positiveOnly)
      {
        if c == candidates[0] {
          if Admits(options, c, positiveOnly) {
            assert r[|options|] == c;
          } else if (!positiveOnly || Positive(c)) {
            var k :| 0 <= k < |options| && options[k] == c;
            assert r[k] == c;
          }
        } else {
          assert c in rest;
        }
      }
    }
  }

  /** When the guard demands positive options and no candidate is positive, nothing is appended. */
  lemma {:induction false} CollectNonePositive(options: seq<Choice>, candidates: seq<Choice>)
    requires forall k :: 0 <= k < |candidates| ==> !Positive(candidates[k])
    ensures Collect(options, candidates, true) == options
    decreases |candidates|
  {
    if |options| < 4 && candidates != [] {
      CollectNonePositive(options, candidates[1..]);
    }
  }

  /**
   * The distractor loop: `options = [correct]`, then append each drawn candidate that
   * passes the guard until four options exist. `None` when the draws run out first
   * (the source would keep drawing).
   */
  method FillOptions(correct: Choice, candidates: seq<Choice>, positiveOnly: bool) returns (r: Option<seq<Choice>>)
    ensures r.Some? <==> |Collect([correct], candidates, positiveOnly)| == 4
    ensures r.Some? ==> r.value == Collect([correct], candidates, positiveOnly)
    ensures r.Some? ==> |r.value| == 4 && r.value[0] == correct && Distinct(r.value)
    ensures r.Some? ==> forall i :: 1 <= i < 4 ==>
      r.value[i] != correct && r.value[i] in candidates && (positiveOnly ==> Positive(r.value[i]))
  {
    var options := [correct];
    var k := 0;
    while |options| < 4 && k < |candidates|
      invariant 0 <= k <= |candidates|
      invariant 1 <= |options| <= 4 && options[0] == correct && Distinct(options)
      invariant forall i :: 1 <= i < |options| ==>
        options[i] in candidates && (positiveOnly ==> Positive(options[i]))
      invariant Collect(options, candidates[k..], positiveOnly) == Collect([correct], candidates, positiveOnly)
    {
      var wrong := candidates[k];
      assert candidates[k..][1..] == candidates[k + 1..];
      if (!positiveOnly || Positive(wrong)) && wrong !in options {
        options := options + [wrong];
      }
      k := k + 1;
    }
    if |options| == 4 {
      r := Some(options);
    } else {
      r := None;
    }
  }

  /** `s` with the entries at `i` and `j` exchanged. */
  function Swap<T>(s: seq<T>, i: nat, j: nat): (r: seq<T>)
    requires i < |s| && j < |s|
    ensures |r| == |s|
  {
    s[i := s[j]][j := s[i]]
  }

  /**
   * The draws `random.shuffle` makes on a list of length `n`: for `i` from `n - 1`
   * down to 1 it draws one `j` with `0 <= j <= i`; `js[k]` is the draw for `i = n - 1 - k`.
   */
  predicate ValidSwaps(n: nat, js: seq<nat>) {
    |js| == (if n == 0 then 0 else n - 1) &&
    forall k :: 0 <= k < |js| ==> js[k] <= n - 1 - k
  }

  /** The list after the first `k` exchanges of the Fisher-Yates pass. */
  function ShuffleSteps<T>(s: seq<T>, js: seq<nat>, k: nat): (r: seq<T>)
    requires ValidSwaps(|s|, js) && k <= |js|
    ensures |r| == |s|
  {
    if k == 0 then s else Swap(ShuffleSteps(s, js, k - 1), |s| - k, js[k - 1])
  }

  /** One exchange only rearranges: the multiset of entries is unchanged. */
  lemma SwapPermutes<T>(t: seq<T>, i: nat, j: nat)
    requires i < |t| && j < |t|
    ensures multiset(Swap(t, i, j)) == multiset(t)
  {
    var u := t[i := t[j]];
    assert multiset(u) == multiset(t) - multiset{t[i]} + multiset{t[j]};
    assert u[j] == t[j];
    assert multiset(u[j := t[i]]) == multiset(u) - multiset{t[j]} + multiset{t[i]};
  }

  /** Shuffling only rearranges: the multiset of entries is unchanged. */
  lemma {:induction false} ShuffleStepsPermutes<T>(s: seq<T>, js: seq<nat>, k: nat)
    requires ValidSwaps(|s|, js) && k <= |js|
    ensures multiset(ShuffleSteps(s, js, k)) == multiset(s)
  {
    if k > 0 {
      var t := ShuffleSteps(s, js, k - 1);
      var i, j := |s| - k, js[k - 1];
      assert ShuffleSteps(s, js, k) == Swap(t, i, j);
      SwapPermutes(t, i, j);
      ShuffleStepsPermutes(s, js, k - 1);
    }
  }

  /** Exchanging entries keeps a list of pairwise distinct entries pairwise distinct. */
  lemma {:induction false} ShuffleStepsDistinct<T>(s: seq<T>, js: seq<nat>, k: nat)
    requires ValidSwaps(|s|, js) && k <= |js| && Distinct(s)
    ensures Distinct(ShuffleSteps(s, js, k))
  {
    if k > 0 {
      ShuffleStepsDistinct(s, js, k - 1);
      var t := ShuffleSteps(s, js, k - 1);
      var i, j := |s| - k, js[k - 1];
      var u := Swap(t, i, j);
      forall a, b | 0 <= a < b < |u| ensures u[a] != u[b] {
        var a' := if a == i then j else if a == j then i else a;
        var b' := if b == i then j else if b == j then i else b;
        assert u[a] == t[a'] && u[b] == t[b'] && a' != b';
      }
    }
  }

  /** `random.shuffle(a)`: Python's in-place Fisher-Yates pass, with its draws supplied. */
  method Shuffle<T>(a: array<T>, js: seq<nat>)
    requires ValidSwaps(a.Length, js)
    modifies a
    ensures a[..] == ShuffleSteps(old(a[..]), js, |js|)
    ensures multiset(a[..]) == multiset(old(a[..]))
  {
    ghost var original := a[..];
    var k := 0;
    while k < |js|
      invariant 0 <= k <= |js|
      invariant a[..] == ShuffleSteps(original, js, k)
    {
      var i, j := a.Length - 1 - k, js[k];
      ghost var before := a[..];
      a[i], a[j] := a[j], a[i];
      assert a[..] == Swap(before, i, j);
      assert ShuffleSteps(original, js, k + 1) == Swap(ShuffleSteps(original, js, k), i, j);
      k := k + 1;
    }
    ShuffleStepsPermutes(original, js, |js|);
  }

  /** `a.index(x)`: the first position holding `x`, or `None` where Python raises `ValueError`. */
  method IndexOf<T(==)>(a: array<T>, x: T) returns (r: Option<nat>)
    ensures r.None? <==> x !in a[..]
    ensures r.Some? ==> r.value < a.Length && a[r.value] == x
    ensures r.Some? ==> forall j :: 0 <= j < r.value ==> a[j] != x
  {
    var i := 0;
    while i < a.Length
      invariant 0 <= i <= a.Length
      invariant forall j :: 0 <= j < i ==> a[j] != x
    {
      if a[i] == x {
        return Some(i);
      }
      i := i + 1;
    }
    return None;
  }

  /**
   * The tail every generator shares: fill the options, shuffle them, and look up the
   * correct answer's new index.
   */
  method Assemble(correct: Choice, candidates: seq<Choice>, positiveOnly: bool, js: seq<nat>)
    returns (r: Result<MultipleChoice, Failure>)
    requires ValidSwaps(4, js)
    ensures r.Ok? <==> |Collect([correct], candidates, positiveOnly)| == 4
    ensures r.Ok? ==> r.value.options == ShuffleSteps(Collect([correct], candidates, positiveOnly), js, 3)
    ensures r.Ok? ==> |r.value.options| == 4 && Distinct(r.value.options)
    ensures r.Ok? ==> r.value.correctIndex < 4 && r.value.options[r.value.correctIndex] == correct
    ensures r.Ok? ==> forall i :: 0 <= i < 4 && i != r.value.correctIndex ==>
      r.value.options[i] != correct && r.value.options[i] in candidates &&
      (positiveOnly ==> Positive(r.value.options[i]))
  {
    var filled := FillOptions(correct, candidates, positiveOnly);
    if filled.None? {
      return Err(OutOfCandidates);
    }
    var options := filled.value;
    var a := new Choice[4](i requires 0 <= i < 4 => options[i]);
    assert a[..] == options;
    Shuffle(a, js);
    ShuffleStepsDistinct(options, js, 3);
    assert correct in multiset(a[..]);
    var found := IndexOf(a, correct);
    var shuffled := a[..];
    forall i | 0 <= i < 4 && i != found.value
      ensures shuffled[i] != correct && shuffled[i] in candidates && (positiveOnly ==> Positive(shuffled[i]))
    {
      assert shuffled[i] != shuffled[found.value];
      assert shuffled[i] in multiset(options);
      var k :| 0 <= k < 4 && options[k] == shuffled[i];
      assert k != 0;
    }
    r := Ok(MultipleChoice(shuffled, found.value));
  }
}
