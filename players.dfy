/**
 * The player records the game keeps in `st.session_state.players` and the rules that
 * update them: joining, answering a quick-challenge question, a speed round, and the
 * tournament leaderboard.
 */
module Players {
  import opened Wrappers

  /** A player's record: `score`, `questions_answered`, `correct_answers`, `join_time`. */
  datatype Stats = Stats(score: int, questionsAnswered: int, correctAnswers: int, joinTime: string)

  /** The counters of a record no rule can break: no negatives, no more hits than answers. */
  predicate Consistent(s: Stats) {
    0 <= s.correctAnswers <= s.questionsAnswered && s.score >= 0
  }

  /** The record a new player starts with. */
  function Fresh(joinTime: string): (s: Stats)
    ensures Consistent(s) && s.joinTime == joinTime
  {
    Stats(0, 0, 0, joinTime)
  }

  /**
   * The percentage shown beside a player, `correct_answers / max(questions_answered, 1) * 100`;
   * a consistent record shows a percentage from 0 to 100.
   */
  function Accuracy(s: Stats): (a: real)
    ensures Consistent(s) ==> 0.0 <= a <= 100.0
  {
    var answered := if s.questionsAnswered > 1 then s.questionsAnswered else 1;
    QuotientAtMostOne(s.correctAnswers, answered);
    s.correctAnswers as real / answered as real * 100.0
  }

  lemma QuotientAtMostOne(c: int, n: int)
    requires n > 0
    ensures 0 <= c <= n ==> 0.0 <= c as real / n as real <= 1.0
  {
    if 0 <= c <= n {
      var q := c as real / n as real;
      assert q * n as real == c as real;
    }
  }

  /**
   * A speed round adds answers but no correct ones, so it never raises the accuracy
   * shown for a player.
   */
  lemma SpeedRoundNeverRaisesAccuracy(s: Stats, hits: nat, questions: nat)
    requires Consistent(s)
    ensures Accuracy(AfterSpeedRound(s, 5 * hits, questions)) <= Accuracy(s)
  {
    var t := AfterSpeedRound(s, 5 * hits, questions);
    var a := if s.questionsAnswered > 1 then s.questionsAnswered else 1;
    var b := if t.questionsAnswered > 1 then t.questionsAnswered else 1;
    AccuracyFalls(s.correctAnswers, a, b);
  }

  lemma AccuracyFalls(c: int, a: int, b: int)
    requires c >= 0 && 0 < a <= b
    ensures c as real / b as real <= c as real / a as real
  {
    var x, y := c as real / a as real, c as real / b as real;
    assert x * a as real == c as real && y * b as real == c as real;
    assert y * a as real <= y * b as real;
  }

  // ---------------------------------------------------------------------------
  // quick challenge
  // ---------------------------------------------------------------------------

  /** `max(0, 5 - int(time_taken))`, the time taken given in whole seconds. */
  function SpeedBonus(seconds: nat): (b: int)
    ensures 0 <= b <= 5
    ensures b == 5 <==> seconds == 0
    ensures b == 0 <==> seconds >= 5
  {
    var b := 5 - seconds;
    if b > 0 then b else 0
  }

  /** A slower answer never earns a larger bonus. */
  lemma SpeedBonusNonIncreasing(fast: nat, slow: nat)
    requires fast <= slow
    ensures SpeedBonus(slow) <= SpeedBonus(fast)
  {
  }

  /** The points for a correct answer: 10 plus the speed bonus. */
  function AnswerPoints(seconds: nat): (p: int)
    ensures 10 <= p <= 15
  {
    10 + SpeedBonus(seconds)
  }

  /** The record after one quick-challenge submission. */
  function AfterAnswer(s: Stats, isCorrect: bool, seconds: nat): Stats {
    var answered := s.(questionsAnswered := s.questionsAnswered + 1);
    if isCorrect then
      answered.(correctAnswers := s.correctAnswers + 1, score := s.score + AnswerPoints(seconds))
    else
      answered
  }

  /**
   * Every submission counts as answered; a correct one also counts as correct and is
   * worth 10 to 15 points; a wrong one changes nothing else.
   */
  lemma AfterAnswerCounts(s: Stats, isCorrect: bool, seconds: nat)
    ensures var t := AfterAnswer(s, isCorrect, seconds);
      t.questionsAnswered == s.questionsAnswered + 1 &&
      t.joinTime == s.joinTime &&
      (isCorrect ==> t.correctAnswers == s.correctAnswers + 1 && 10 <= t.score - s.score <= 15) &&
      (!isCorrect ==> t.correctAnswers == s.correctAnswers && t.score == s.score)
  {
  }

  /** A submission keeps a record consistent and never lowers its score. */
  lemma AfterAnswerConsistent(s: Stats, isCorrect: bool, seconds: nat)
    requires Consistent(s)
    ensures Consistent(AfterAnswer(s, isCorrect, seconds))
    ensures AfterAnswer(s, isCorrect, seconds).score >= s.score
  {
  }

  // ---------------------------------------------------------------------------
  // speed round
  // ---------------------------------------------------------------------------

  /** The record after a speed round's score and question count are added to it. */
  function AfterSpeedRound(s: Stats, roundScore: int, roundQuestions: int): Stats {
    s.(score := s.score + roundScore, questionsAnswered := s.questionsAnswered + roundQuestions)
  }

  /**
   * A round with `hits` correct answers out of `questions` adds `5 * hits` points and
   * `questions` answers; the correct-answer count is left as it was, so the record
   * stays consistent and its score does not fall.
   */
  lemma AfterSpeedRoundConsistent(s: Stats, hits: nat, questions: nat)
    requires Consistent(s) && hits <= questions
    ensures var t := AfterSpeedRound(s, 5 * hits, questions);
      Consistent(t) && t.correctAnswers == s.correctAnswers && t.score >= s.score &&
      t.questionsAnswered == s.questionsAnswered + questions
  {
  }

  /** `max(0, 60 - elapsed)`, the seconds left in a speed round. */
  function Remaining(elapsed: nat): (r: nat)
    ensures r > 0 <==> elapsed < 60
    ensures r <= 60
  {
    if elapsed < 60 then 60 - elapsed else 0
  }

  // ---------------------------------------------------------------------------
  // the leaderboard
  // ---------------------------------------------------------------------------

  type Entry = (string, Stats)

  predicate Descending(s: seq<Entry>) {
    forall i, j :: 0 <= i < j < |s| ==> s[i].1.score >= s[j].1.score
  }

  /** The entries of `s` whose score is `v`, in their order in `s`. */
  function WithScore(s: seq<Entry>, v: int): seq<Entry> {
    if s == [] then []
    else (if s[0].1.score == v then [s[0]] else []) + WithScore(s[1..], v)
  }

  /** Puts `x` before the first entry whose score is not above its own. */
  function InsertByScore(x: Entry, t: seq<Entry>): (r: seq<Entry>)
    ensures |r| == |t| + 1 && multiset(r) == multiset{x} + multiset(t)
  {
    if t == [] || t[0].1.score <= x.1.score then [x] + t
    else
      assert t == [t[0]] + t[1..];
      [t[0]] + InsertByScore(x, t[1..])
  }

  /** Prefixing an entry scoring at least as much as every other keeps the order descending. */
  lemma ConsDescending(y: Entry, t: seq<Entry>)
    requires Descending(t) && forall k :: 0 <= k < |t| ==> t[k].1.score <= y.1.score
    ensures Descending([y] + t)
  {
    var r := [y] + t;
    forall i, j | 0 <= i < j < |r|
      ensures r[i].1.score >= r[j].1.score
    {
      assert r[j] == t[j - 1];
      if i > 0 {
        assert r[i] == t[i - 1];
      }
    }
  }

  lemma {:induction false} InsertDescending(x: Entry, t: seq<Entry>)
    requires Descending(t)
    ensures Descending(InsertByScore(x, t))
    decreases |t|
  {
    if t != [] && t[0].1.score > x.1.score {
      var rest := t[1..];
      var u := InsertByScore(x, rest);
      assert Descending(rest) by {
        forall i, j | 0 <= i < j < |rest| ensures rest[i].1.score >= rest[j].1.score {
          assert rest[i] == t[i + 1] && rest[j] == t[j + 1];
        }
      }
      InsertDescending(x, rest);
      forall k | 0 <= k < |u|
        ensures u[k].1.score <= t[0].1.score
      {
        assert u[k] in multiset(u);
        if u[k] != x {
          assert u[k] in multiset(rest);
          assert u[k] in rest;
        }
      }
      ConsDescending(t[0], u);
      assert InsertByScore(x, t) == [t[0]] + u;
    } else if t != [] {
      ConsDescending(x, t);
    }
  }

  /** Inserting keeps the relative order of the entries sharing a score, `x` going first. */
  lemma {:induction false} InsertStable(x: Entry, t: seq<Entry>, v: int)
    ensures WithScore(InsertByScore(x, t), v) == (if x.1.score == v then [x] else []) + WithScore(t, v)
    decreases |t|
  {
    if t == [] || t[0].1.score <= x.1.score {
      assert InsertByScore(x, t) == [x] + t;
      WithScoreCons(x, t, v);
    } else {
      InsertStable(x, t[1..], v);
      InsertPastFirst(x, t, v);
    }
  }

  /** The inductive step of `InsertStable`, where `x` goes after the first entry. */
  lemma InsertPastFirst(x: Entry, t: seq<Entry>, v: int)
    requires t != [] && t[0].1.score > x.1.score
    requires WithScore(InsertByScore(x, t[1..]), v) == (if x.1.score == v then [x] else []) + WithScore(t[1..], v)
    ensures WithScore(InsertByScore(x, t), v) == (if x.1.score == v then [x] else []) + WithScore(t, v)
  {
    var u := InsertByScore(x, t[1..]);
    var w := WithScore(t[1..], v);
    var cx: seq<Entry> := if x.1.score == v then [x] else [];
    var c0: seq<Entry> := if t[0].1.score == v then [t[0]] else [];
    assert InsertByScore(x, t) == [t[0]] + u;
    WithScoreCons(t[0], u, v);
    assert t == [t[0]] + t[1..];
    WithScoreCons(t[0], t[1..], v);
    if cx == [] {
      assert cx + w == w && cx + (c0 + w) == c0 + w;
    } else {
      assert c0 == [];
      assert c0 + (cx + w) == cx + w && c0 + w == w;
    }
  }

  lemma WithScoreCons(y: Entry, t: seq<Entry>, v: int)
    ensures WithScore([y] + t, v) == (if y.1.score == v then [y] else []) + WithScore(t, v)
  {
    assert ([y] + t)[0] == y && ([y] + t)[1..] == t;
  }

  /**
   * `sorted(players.items(), key=score, reverse=True)`: Python's sort is stable, and
   * `reverse=True` keeps entries of equal score in their original order.
   */
  function Leaderboard(items: seq<Entry>): (r: seq<Entry>)
    ensures |r| == |items| && multiset(r) == multiset(items) && Descending(r)
  {
    if items == [] then []
    else
      assert items == [items[0]] + items[1..];
      InsertDescending(items[0], Leaderboard(items[1..]));
      InsertByScore(items[0], Leaderboard(items[1..]))
  }

  /** Players with the same score appear in the order they joined. */
  lemma {:induction false} LeaderboardStable(items: seq<Entry>, v: int)
    ensures WithScore(Leaderboard(items), v) == WithScore(items, v)
    decreases |items|
  {
    if items != [] {
      LeaderboardStable(items[1..], v);
      InsertStable(items[0], Leaderboard(items[1..]), v);
    }
  }

  // ---------------------------------------------------------------------------
  // the session's players
  // ---------------------------------------------------------------------------

  /**
   * `st.session_state.players`, a dict kept in insertion order, and
   * `st.session_state.current_player`.
   */
  class Roster {
    var players: map<string, Stats>
    var order: seq<string>
    var current: Option<string>

    /** `order` lists each player once, in the order they joined: the dict's key order. */
    ghost predicate Valid()
      reads this
    {
      (forall i, j :: 0 <= i < j < |order| ==> order[i] != order[j]) &&
      (forall name :: name in players <==> name in order)
    }

    /**
     * Every record is consistent. The loaded file is not checked, so this holds only
     * when it does for the loaded records; the rules below never break it.
     */
    ghost predicate AllConsistent()
      reads this
    {
      forall name :: name in players ==> Consistent(players[name])
    }

    /**
     * The players loaded when a session starts, whatever their counters hold, with no
     * current player.
     */
    constructor(loaded: map<string, Stats>, loadedOrder: seq<string>)
      requires forall i, j :: 0 <= i < j < |loadedOrder| ==> loadedOrder[i] != loadedOrder[j]
      requires forall name :: name in loaded <==> name in loadedOrder
      ensures Valid() && players == loaded && order == loadedOrder && current == None
    {
      players := loaded;
      order := loadedOrder;
      current := None;
    }

    /**
     * The "Join Game" button: a non-empty name not yet playing gets a fresh record; a
     * known name keeps its record; either way it becomes the current player. An empty
     * name does nothing.
     */
    method Join(name: string, now: string)
      requires Valid()
      modifies this
      ensures Valid() && (old(AllConsistent()) ==> AllConsistent())
      ensures name == "" ==> players == old(players) && order == old(order) && current == old(current)
      ensures name != "" ==> current == Some(name)
      ensures name != "" && name !in old(players) ==>
        players == old(players)[name := Fresh(now)] && order == old(order) + [name]
      ensures name in old(players) ==> players == old(players) && order == old(order)
    {
      if name != "" {
        if name !in players {
          players := players[name := Fresh(now)];
          order := order + [name];
        }
        current := Some(name);
      }
    }

    /**
     * A quick-challenge submission by `name`: the points it earned (0 when wrong), or
     * `None` for a name with no record, where the source raises `KeyError`.
     */
    method SubmitAnswer(name: string, isCorrect: bool, seconds: nat) returns (points: Option<int>)
      requires Valid()
      modifies this
      ensures Valid() && order == old(order) && current == old(current)
      ensures old(AllConsistent()) ==> AllConsistent()
      ensures name !in old(players) ==> points.None? && players == old(players)
      ensures name in old(players) ==>
        points == Some(if isCorrect then AnswerPoints(seconds) else 0) &&
        players == old(players)[name := AfterAnswer(old(players)[name], isCorrect, seconds)]
    {
      if name !in players {
        return None;
      }
      if Consistent(players[name]) {
        AfterAnswerConsistent(players[name], isCorrect, seconds);
      }
      players := players[name := AfterAnswer(players[name], isCorrect, seconds)];
      points := Some(if isCorrect then AnswerPoints(seconds) else 0);
    }

    /** Adding a finished speed round to `name`'s record; `false` for a name with no record. */
    method MergeSpeedRound(name: string, roundScore: nat, roundQuestions: nat) returns (ok: bool)
      requires Valid()
      modifies this
      ensures Valid() && order == old(order) && current == old(current)
      ensures old(AllConsistent()) ==> AllConsistent()
      ensures ok <==> name in old(players)
      ensures !ok ==> players == old(players)
      ensures ok ==> players == old(players)[name := AfterSpeedRound(old(players)[name], roundScore, roundQuestions)]
    {
      if name !in players {
        return false;
      }
      players := players[name := AfterSpeedRound(players[name], roundScore, roundQuestions)];
      ok := true;
    }

    /** `players.items()`, in insertion order. */
    function Items(): (r: seq<Entry>)
      reads this
      requires Valid()
      ensures |r| == |order| && forall i :: 0 <= i < |r| ==> r[i].0 == order[i] && r[i].1 == players[order[i]]
    {
      assert forall i :: 0 <= i < |order| ==> order[i] in players by {
        forall i | 0 <= i < |order| ensures order[i] in players {
          assert order[i] in order;
        }
      }
      seq(|order|, i requires 0 <= i < |order| && order[i] in players reads this => (order[i], players[order[i]]))
    }

    /**
     * Tournament mode: `None` with fewer than two players, otherwise every player
     * ranked by score, highest first, ties in the order they joined.
     */
    method Tournament() returns (board: Option<seq<Entry>>)
      requires Valid()
      ensures |players| < 2 ==> board.None?
      ensures |players| >= 2 ==> board.Some? && board.value == Leaderboard(Items())
    {
      if |players| < 2 {
        return None;
      }
      board := Some(Leaderboard(Items()));
    }
  }

  /**
   * A speed round: `speed_round_active`, `speed_round_score`,
   * `speed_round_questions`, and the number of correct answers behind the score.
   */
  class SpeedRound {
    var active: bool
    var score: int
    var questions: int
    ghost var hits: nat

    /** Each correct answer is worth 5, and there are no more of them than questions. */
    ghost predicate Valid()
      reads this
    {
      hits <= questions && score == 5 * hits
    }

    constructor()
      ensures Valid() && !active && score == 0 && questions == 0
    {
      active := false;
      score := 0;
      questions := 0;
      hits := 0;
    }

    /** The start button: a fresh round with nothing scored. */
    method Start()
      modifies this
      ensures Valid() && active && score == 0 && questions == 0 && hits == 0
    {
      active := true;
      score := 0;
      questions := 0;
      hits := 0;
    }

    /** The submit button while time remains: one more question, 5 more points if correct. */
    method Submit(isCorrect: bool, elapsed: nat)
      requires Valid() && active && Remaining(elapsed) > 0
      modifies this
      ensures Valid() && active
      ensures questions == old(questions) + 1
      ensures score == old(score) + (if isCorrect then 5 else 0)
      ensures hits == old(hits) + (if isCorrect then 1 else 0)
    {
      questions := questions + 1;
      if isCorrect {
        score := score + 5;
        hits := hits + 1;
      }
    }

    /**
     * Time is up: the round ends and its score and question count are added to the
     * player's record (`false` for a name with no record).
     */
    method Finish(elapsed: nat, roster: Roster, name: string) returns (ok: bool)
      requires Valid() && active && Remaining(elapsed) == 0 && roster.Valid()
      modifies this, roster
      ensures Valid() && !active && score == old(score) && questions == old(questions)
      ensures roster.Valid() && roster.order == old(roster.order) && roster.current == old(roster.current)
      ensures old(roster.AllConsistent()) ==> roster.AllConsistent()
      ensures ok <==> name in old(roster.players)
      ensures !ok ==> roster.players == old(roster.players)
      ensures ok ==> (roster.players ==
        old(roster.players)[name := AfterSpeedRound(old(roster.players)[name], old(score), old(questions))])
    {
      active := false;
      ok := roster.MergeSpeedRound(name, score, questions);
    }
  }
}
