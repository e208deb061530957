/**
 * `MathGame.generate_statistics_question`: a dataset of 5 to 8 integers from 10 to 50,
 * and a question about its mean, median, mode or range.
 *
 * The "mode" question appends a randomly chosen element to the data and records that
 * element as the answer. The element then occurs at least twice, but another value
 * can occur more often; `ModeNotMostFrequent` exhibits such a dataset.
 */
module StatisticsQuestion {
  import opened Wrappers
  import opened Choices
  import opened Rounding

  datatype Kind = Mean | Median | Mode | Range

  /**
   * The random draws: the dataset, the question type and, for a mode question, the
   * position of the element `random.choice(data)` picks.
   */
  datatype Draws = Draws(data: seq<int>, kind: Kind, modeIndex: nat)

  predicate Valid(d: Draws) {
    5 <= |d.data| <= 8 && d.modeIndex < |d.data| &&
    forall i :: 0 <= i < |d.data| ==> 10 <= d.data[i] <= 50
  }

  /** The dataset the question text shows: a mode question shows it with the element appended. */
  function Shown(d: Draws): seq<int>
    requires d.modeIndex < |d.data|
  {
    if d.kind == Mode then d.data + [d.data[d.modeIndex]] else d.data
  }

  // ---------------------------------------------------------------------------
  // sum, max, min
  // ---------------------------------------------------------------------------

  function Sum(s: seq<int>): int {
    if s == [] then 0 else s[0] + Sum(s[1..])
  }

  /** Python's `max`: an element no other element exceeds. */
  function Max(s: seq<int>): (m: int)
    requires |s| > 0
    ensures m in s && forall i :: 0 <= i < |s| ==> s[i] <= m
  {
    if |s| == 1 then s[0]
    else
      var rest := Max(s[1..]);
      if s[0] >= rest then s[0] else rest
  }

  /** Python's `min`: an element no other element undercuts. */
  function Min(s: seq<int>): (m: int)
    requires |s| > 0
    ensures m in s && forall i :: 0 <= i < |s| ==> m <= s[i]
  {
    if |s| == 1 then s[0]
    else
      var rest := Min(s[1..]);
      if s[0] <= rest then s[0] else rest
  }

  /** Bounds on the elements bound the sum. */
  lemma {:induction false} SumBounds(s: seq<int>, lo: int, hi: int)
    requires forall i :: 0 <= i < |s| ==> lo <= s[i] <= hi
    ensures |s| * lo <= Sum(s) <= |s| * hi
  {
    if s != [] {
      SumBounds(s[1..], lo, hi);
      assert |s| * lo == lo + (|s| - 1) * lo && |s| * hi == hi + (|s| - 1) * hi;
    }
  }

  // ---------------------------------------------------------------------------
  // sorted
  // ---------------------------------------------------------------------------

  predicate Ascending(s: seq<int>) {
    forall i, j :: 0 <= i < j < |s| ==> s[i] <= s[j]
  }

  /** Puts `x` before the first element not smaller than it. */
  function Insert(x: int, s: seq<int>): (r: seq<int>)
    ensures |r| == |s| + 1 && multiset(r) == multiset{x} + multiset(s)
  {
    if s == [] || x <= s[0] then [x] + s
    else
      assert s == [s[0]] + s[1..];
      [s[0]] + Insert(x, s[1..])
  }

  /** Prefixing a value no larger than any element keeps a sequence ascending. */
  lemma ConsAscending(y: int, t: seq<int>)
    requires Ascending(t) && forall k :: 0 <= k < |t| ==> y <= t[k]
    ensures Ascending([y] + t)
  {
    var r := [y] + t;
    forall i, j | 0 <= i < j < |r|
      ensures r[i] <= r[j]
    {
      assert r[j] == t[j - 1];
      if i > 0 {
        assert r[i] == t[i - 1];
      }
    }
  }

  /** Inserting into an ascending sequence keeps it ascending. */
  lemma {:induction false} InsertAscending(x: int, s: seq<int>)
    requires Ascending(s)
    ensures Ascending(Insert(x, s))
    decreases |s|
  {
    if s != [] && x > s[0] {
      var rest := s[1..];
      var t := Insert(x, rest);
      InsertAscending(x, rest);
      assert Ascending(rest) by {
        forall i, j | 0 <= i < j < |rest| ensures rest[i] <= rest[j] {
          assert rest[i] == s[i + 1] && rest[j] == s[j + 1];
        }
      }
      forall k | 0 <= k < |t|
        ensures s[0] <= t[k]
      {
        assert t[k] in multiset(t);
        if t[k] != x {
          assert t[k] in multiset(rest);
          assert t[k] in rest;
        }
      }
      ConsAscending(s[0], t);
      assert Insert(x, s) == [s[0]] + t;
    }
  }

  /** Python's `sorted` on integers: an ascending permutation of the input. */
  function Sort(s: seq<int>): (r: seq<int>)
    ensures |r| == |s| && Ascending(r) && multiset(r) == multiset(s)
  {
    if s == [] then []
    else
      assert s == [s[0]] + s[1..];
      InsertAscending(s[0], Sort(s[1..]));
      Insert(s[0], Sort(s[1..]))
  }

  /** An element of an ascending sequence is no smaller than its first element. */
  lemma FirstIsLeast(s: seq<int>, x: int)
    requires Ascending(s) && x in multiset(s)
    ensures |s| > 0 && s[0] <= x
  {
    assert x in s;
  }

  /**
   * There is only one ascending arrangement of a multiset, so `Sort` agrees with
   * `sorted` whatever algorithm either uses.
   */
  lemma {:induction false} AscendingUnique(a: seq<int>, b: seq<int>)
    requires Ascending(a) && Ascending(b) && multiset(a) == multiset(b)
    ensures a == b
    decreases |a|
  {
    if a != [] {
      assert a[0] in multiset(a);
      FirstIsLeast(b, a[0]);
      FirstIsLeast(a, b[0]);
      assert a == [a[0]] + a[1..] && b == [b[0]] + b[1..];
      assert multiset(a) == multiset{a[0]} + multiset(a[1..]);
      assert multiset(b) == multiset{b[0]} + multiset(b[1..]);
      assert a[0] == b[0];
      forall z
        ensures multiset(a[1..])[z] == multiset(b[1..])[z]
      {
        assert multiset(a)[z] == multiset{a[0]}[z] + multiset(a[1..])[z];
        assert multiset(b)[z] == multiset{b[0]}[z] + multiset(b[1..])[z];
      }
      assert multiset(a[1..]) == multiset(b[1..]);
      AscendingUnique(a[1..], b[1..]);
    } else {
      assert |multiset(b)| == 0;
    }
  }

  // ---------------------------------------------------------------------------
  // mean, median, range
  // ---------------------------------------------------------------------------

  function MeanOf(s: seq<int>): real
    requires |s| > 0
  {
    Sum(s) as real / |s| as real
  }

  /** The middle element of `t`, or the mean of the two middle elements when `|t|` is even. */
  function MiddleOf(t: seq<int>): real
    requires |t| > 0
  {
    var n := |t|;
    if n % 2 == 0 then (t[n / 2 - 1] + t[n / 2]) as real / 2.0 else t[n / 2] as real
  }

  /** The source's median: the middle of the sorted data. */
  function MedianOf(s: seq<int>): real
    requires |s| > 0
  {
    MiddleOf(Sort(s))
  }

  function RangeOf(s: seq<int>): int
    requires |s| > 0
  {
    Max(s) - Min(s)
  }

  lemma QuotientBetween(sum: int, n: int, lo: int, hi: int)
    requires n > 0 && n * lo <= sum <= n * hi
    ensures lo as real <= sum as real / n as real <= hi as real
  {
    var q := sum as real / n as real;
    assert q * n as real == sum as real;
    assert (n * lo) as real == n as real * lo as real && (n * hi) as real == n as real * hi as real;
    assert n as real * (q - lo as real) >= 0.0 && n as real * (hi as real - q) >= 0.0;
  }

  /** The mean lies between the smallest and the largest element. */
  lemma MeanBetween(s: seq<int>)
    requires |s| > 0
    ensures Min(s) as real <= MeanOf(s) <= Max(s) as real
  {
    SumBounds(s, Min(s), Max(s));
    QuotientBetween(Sum(s), |s|, Min(s), Max(s));
  }

  /** The range is never negative and is the largest difference between two elements. */
  lemma RangeIsLargestGap(s: seq<int>)
    requires |s| > 0
    ensures RangeOf(s) >= 0
    ensures forall i, j :: 0 <= i < |s| && 0 <= j < |s| ==> s[i] - s[j] <= RangeOf(s)
    ensures exists i, j :: 0 <= i < |s| && 0 <= j < |s| && s[i] - s[j] == RangeOf(s)
  {
    var i :| 0 <= i < |s| && s[i] == Max(s);
    var j :| 0 <= j < |s| && s[j] == Min(s);
    assert s[i] - s[j] == RangeOf(s);
  }

  /** Which side of a value an element is counted on. */
  datatype Side = AtMost | AtLeast

  predicate OnSide(x: int, m: real, side: Side) {
    if side == AtMost then x as real <= m else x as real >= m
  }

  /** How many elements of `s` lie on `side` of `m`. */
  function CountOn(s: seq<int>, m: real, side: Side): nat {
    if s == [] then 0 else (if OnSide(s[0], m, side) then 1 else 0) + CountOn(s[1..], m, side)
  }

  lemma {:induction false} CountSplit(a: seq<int>, b: seq<int>, m: real, side: Side)
    ensures CountOn(a + b, m, side) == CountOn(a, m, side) + CountOn(b, m, side)
    decreases |a|
  {
    if a != [] {
      var c := a + b;
      assert c[0] == a[0] && c[1..] == a[1..] + b;
      assert CountOn(c, m, side) == (if OnSide(a[0], m, side) then 1 else 0) + CountOn(a[1..] + b, m, side);
      CountSplit(a[1..], b, m, side);
    } else {
      assert a + b == b;
    }
  }

  lemma {:induction false} CountAll(s: seq<int>, m: real, side: Side)
    requires forall i :: 0 <= i < |s| ==> OnSide(s[i], m, side)
    ensures CountOn(s, m, side) == |s|
    decreases |s|
  {
    if s != [] {
      CountAll(s[1..], m, side);
    }
  }

  /** Taking out the element at `k` removes it from the multiset and from the count. */
  lemma CountRemove(t: seq<int>, k: nat, m: real, side: Side)
    requires k < |t|
    ensures multiset(t[..k] + t[k + 1..]) == multiset(t) - multiset{t[k]}
    ensures CountOn(t, m, side) == (if OnSide(t[k], m, side) then 1 else 0) + CountOn(t[..k] + t[k + 1..], m, side)
  {
    var before, after := t[..k], t[k + 1..];
    assert t == before + ([t[k]] + after);
    CountSplit(before, [t[k]] + after, m, side);
    CountSplit([t[k]], after, m, side);
    CountSplit(before, after, m, side);
  }

  /** Counting does not depend on the order of the elements. */
  lemma {:induction false} CountPermutation(s: seq<int>, t: seq<int>, m: real, side: Side)
    requires multiset(s) == multiset(t)
    ensures CountOn(s, m, side) == CountOn(t, m, side)
    decreases |s|
  {
    if s == [] {
      assert |multiset(t)| == 0;
    } else {
      var x := s[0];
      assert x in multiset(t);
      var k :| 0 <= k < |t| && t[k] == x;
      CountRemove(t, k, m, side);
      CountRemove(s, 0, m, side);
      assert s[..0] + s[1..] == s[1..];
      CountPermutation(s[1..], t[..k] + t[k + 1..], m, side);
    }
  }

  /** At least `p` elements of `s` lie on `side` of `m` when its first `p` do. */
  lemma CountPrefix(s: seq<int>, p: nat, m: real, side: Side)
    requires p <= |s| && forall i :: 0 <= i < p ==> OnSide(s[i], m, side)
    ensures CountOn(s, m, side) >= p
  {
    assert s == s[..p] + s[p..];
    CountSplit(s[..p], s[p..], m, side);
    CountAll(s[..p], m, side);
  }

  /** At least `|s| - p` elements of `s` lie on `side` of `m` when all from position `p` do. */
  lemma CountSuffix(s: seq<int>, p: nat, m: real, side: Side)
    requires p <= |s| && forall i :: p <= i < |s| ==> OnSide(s[i], m, side)
    ensures CountOn(s, m, side) >= |s| - p
  {
    assert s == s[..p] + s[p..];
    CountSplit(s[..p], s[p..], m, side);
    CountAll(s[p..], m, side);
  }

  /** The middle of an ascending sequence has at least half of it on each side. */
  lemma MiddleHalves(t: seq<int>)
    requires |t| > 0 && Ascending(t)
    ensures 2 * CountOn(t, MiddleOf(t), AtMost) >= |t|
    ensures 2 * CountOn(t, MiddleOf(t), AtLeast) >= |t|
  {
    var n, m := |t|, MiddleOf(t);
    var h := n / 2;
    if n % 2 == 0 {
      assert t[h - 1] <= t[h];
      forall i | 0 <= i < h
        ensures OnSide(t[i], m, AtMost)
      {
        assert t[i] <= t[h - 1];
      }
      forall i | h <= i < n
        ensures OnSide(t[i], m, AtLeast)
      {
        assert t[h] <= t[i];
      }
      CountPrefix(t, h, m, AtMost);
      CountSuffix(t, h, m, AtLeast);
    } else {
      forall i | 0 <= i < h + 1
        ensures OnSide(t[i], m, AtMost)
      {
        assert t[i] <= t[h];
      }
      forall i | h <= i < n
        ensures OnSide(t[i], m, AtLeast)
      {
        assert t[h] <= t[i];
      }
      CountPrefix(t, h + 1, m, AtMost);
      CountSuffix(t, h, m, AtLeast);
    }
  }

  /** The median splits the data in halves: at least half is at most it, at least half at least it. */
  lemma MedianHalves(s: seq<int>)
    requires |s| > 0
    ensures 2 * CountOn(s, MedianOf(s), AtMost) >= |s|
    ensures 2 * CountOn(s, MedianOf(s), AtLeast) >= |s|
  {
    var t := Sort(s);
    MiddleHalves(t);
    CountPermutation(s, t, MedianOf(s), AtMost);
    CountPermutation(s, t, MedianOf(s), AtLeast);
  }

  /** An odd-sized dataset has an element as its median. */
  lemma MedianOfOddIsElement(s: seq<int>)
    requires |s| % 2 == 1
    ensures exists i :: 0 <= i < |s| && s[i] as real == MedianOf(s)
  {
    var t := Sort(s);
    assert t[|t| / 2] in multiset(s);
    var i :| 0 <= i < |s| && s[i] == t[|t| / 2];
  }

  /** The median does not depend on the order the data comes in. */
  lemma MedianOrderFree(s: seq<int>, t: seq<int>)
    requires |s| > 0 && multiset(s) == multiset(t)
    ensures |t| > 0 && MedianOf(s) == MedianOf(t)
  {
    assert |t| == |multiset(t)|;
    AscendingUnique(Sort(s), Sort(t));
  }

  // ---------------------------------------------------------------------------
  // the question
  // ---------------------------------------------------------------------------

  function Answer(d: Draws): real
    requires Valid(d)
  {
    match d.kind
    case Mean => MeanOf(d.data)
    case Median => MedianOf(d.data)
    case Mode => d.data[d.modeIndex] as real
    case Range => RangeOf(d.data) as real
  }

  /** The recorded mode is an element of the shown data and occurs in it at least twice. */
  lemma ModeRepeated(d: Draws)
    requires Valid(d) && d.kind == Mode
    ensures Answer(d).Floor in Shown(d)
    ensures Answer(d).Floor as real == Answer(d)
    ensures multiset(Shown(d))[Answer(d).Floor] >= 2
  {
    assert d.data[d.modeIndex] in multiset(d.data);
  }

  /** The recorded "mode" need not be the most frequent value of the shown data. */
  lemma ModeNotMostFrequent()
    ensures var d := Draws([10, 10, 10, 20, 30], Mode, 3);
      Valid(d) && Answer(d) == 20.0 &&
      Shown(d) == [10, 10, 10, 20, 30, 20] &&
      multiset(Shown(d))[20] == 2 && multiset(Shown(d))[10] == 3
  {
  }

  /** The dataset 10, 20, 20, 30, 40 has mean 24. */
  lemma MeanExample()
    ensures MeanOf([10, 20, 20, 30, 40]) == 24.0
  {
    assert Sum([10, 20, 20, 30, 40]) == 120;
  }

  /** The median is the middle of any ascending arrangement of the data. */
  lemma MedianFromArrangement(s: seq<int>, t: seq<int>)
    requires |s| > 0 && |t| > 0 && multiset(s) == multiset(t) && Ascending(t)
    ensures MedianOf(s) == MiddleOf(t)
  {
    AscendingUnique(Sort(s), t);
  }

  lemma ExampleArranged(t: seq<int>)
    requires t == [10, 20, 20, 30, 40]
    ensures multiset(t) == multiset{10, 20, 20, 30, 40} && Ascending(t)
  {
    forall i, j | 0 <= i < j < |t|
      ensures t[i] <= t[j]
    {
    }
  }

  /**
   * Any arrangement of 10, 20, 20, 30, 40 (the dataset 30, 20, 40, 10, 20, say) has
   * median 20.
   */
  lemma MedianExample(s: seq<int>)
    requires multiset(s) == multiset{10, 20, 20, 30, 40}
    ensures MedianOf(s) == 20.0
  {
    assert |s| == |multiset(s)| == 5;
    var t := [10, 20, 20, 30, 40];
    ExampleArranged(t);
    MedianFromArrangement(s, t);
  }

  /** The dataset 10, 20, 20, 30, 40 has range 30. */
  lemma RangeExample()
    ensures RangeOf([10, 20, 20, 30, 40]) == 30
  {
    var s := [10, 20, 20, 30, 40];
    assert forall i :: 0 <= i < |s| ==> 10 <= s[i] <= 40;
    assert s[4] <= Max(s) && Min(s) <= s[0];
  }

  /**
   * The distractor draws: for a mean or median `round(correct + uniform(-5, 5), 1)`,
   * otherwise `correct + randint(-10, 10)`; one draw per loop turn.
   */
  function Candidates(d: Draws, uniforms: seq<real>, offsets: seq<int>): (c: seq<Choice>)
    requires Valid(d)
    ensures |c| == if d.kind == Mean || d.kind == Median then |uniforms| else |offsets|
  {
    var correct := Answer(d);
    if d.kind == Mean || d.kind == Median then
      seq(|uniforms|, k requires 0 <= k < |uniforms| => Number(RoundTo(correct + uniforms[k], Tenths)))
    else
      seq(|offsets|, k requires 0 <= k < |offsets| => Number(correct + offsets[k] as real))
  }

  predicate ValidUniforms(uniforms: seq<real>) {
    forall k :: 0 <= k < |uniforms| ==> -5.0 <= uniforms[k] <= 5.0
  }

  predicate ValidOffsets(offsets: seq<int>) {
    forall k :: 0 <= k < |offsets| ==> -10 <= offsets[k] <= 10
  }

  /**
   * `generate_statistics_question`: four distinct options, the answer at
   * `correctIndex`; every other option is positive and is either the answer moved by
   * at most 5 and rounded to tenths (mean, median) or the answer moved by a whole
   * number from -10 to 10 (mode, range).
   */
  method Generate(d: Draws, uniforms: seq<real>, offsets: seq<int>, js: seq<nat>)
    returns (r: Result<MultipleChoice, Failure>)
    requires Valid(d) && ValidUniforms(uniforms) && ValidOffsets(offsets) && ValidSwaps(4, js)
    ensures r.Ok? <==> |Collect([Number(Answer(d))], Candidates(d, uniforms, offsets), true)| == 4
    ensures r.Ok? ==> |r.value.options| == 4 && Distinct(r.value.options)
    ensures r.Ok? ==> r.value.correctIndex < 4 && r.value.options[r.value.correctIndex] == Number(Answer(d))
    ensures r.Ok? ==> forall i :: 0 <= i < 4 && i != r.value.correctIndex ==>
      r.value.options[i].Number? && r.value.options[i].value > 0.0 &&
      if d.kind == Mean || d.kind == Median then
        -5.05 <= r.value.options[i].value - Answer(d) <= 5.05 &&
        (r.value.options[i].value * 10.0).Floor as real == r.value.options[i].value * 10.0
      else
        -10.0 <= r.value.options[i].value - Answer(d) <= 10.0 &&
        (r.value.options[i].value - Answer(d)).Floor as real == r.value.options[i].value - Answer(d)
  {
    var candidates := Candidates(d, uniforms, offsets);
    r := Assemble(Number(Answer(d)), candidates, true, js);
    if r.Ok? {
      forall i | 0 <= i < 4 && i != r.value.correctIndex
        ensures r.value.options[i].Number? &&
          if d.kind == Mean || d.kind == Median then
            -5.05 <= r.value.options[i].value - Answer(d) <= 5.05 &&
            (r.value.options[i].value * 10.0).Floor as real == r.value.options[i].value * 10.0
          else
            -10.0 <= r.value.options[i].value - Answer(d) <= 10.0 &&
            (r.value.options[i].value - Answer(d)).Floor as real == r.value.options[i].value - Answer(d)
      {
        var k :| 0 <= k < |candidates| && candidates[k] == r.value.options[i];
        if d.kind == Mean || d.kind == Median {
          RoundClose(Answer(d) + uniforms[k], Tenths);
          RoundTenths(Answer(d) + uniforms[k]);
        }
      }
    }
  }

  /** A value rounded to one place is a whole number of tenths. */
  lemma RoundTenths(x: real)
    ensures (RoundTo(x, Tenths) * 10.0).Floor as real == RoundTo(x, Tenths) * 10.0
  {
    assert RoundTo(x, Tenths) * 10.0 == RoundTicks(x, Tenths) as real;
  }
}
