/**
 * What a sequence of statistics updates amounts to. The stored statistics are
 * a function of the history's percentages (the same recurrence replayed from
 * zero); the counters equal the number of entries; the streak is the length of
 * the final run of percentages of at least 80. The stored average, however, is
 * not the rounded mean of the history: it is rounded before it is reused.
 */
module StatsHistory {
  import opened Wrappers
  import opened Numbers
  import opened Js
  import opened Users
  import opened Stats

  function Percentages(h: seq<HistoryEntry>): (ps: seq<real>)
    ensures |ps| == |h|
    ensures forall i :: 0 <= i < |h| ==> ps[i] == h[i].percentage
  {
    seq(|h|, i requires 0 <= i < |h| => h[i].percentage)
  }

  /** The statistics obtained by applying the route's transition to each
      percentage in turn, starting from a fresh account. */
  function Replay(ps: seq<real>): UserStats {
    if ps == [] then ZeroStats
    else NextStats(Replay(ps[..|ps| - 1]), ps[|ps| - 1])
  }

  /** A record whose statistics are exactly what its history replays to. */
  ghost predicate Consistent(u: UserDoc) {
    CurrentStats(u) == Replay(Percentages(u.quizHistory))
  }

  /** A record with no statistics and no history (the route's default) is consistent. */
  lemma EmptyRecordConsistent(u: UserDoc)
    requires u.quizHistory == []
    requires u.stats.None? || u.stats == Some(ZeroStats)
    ensures Consistent(u)
  {
    assert Percentages(u.quizHistory) == [];
  }

  /** One update keeps a record consistent. */
  lemma RecordKeepsConsistent(u: UserDoc, s: Submission, quizType: Value, now: int)
    requires s.totalQuestions != 0.0
    requires Consistent(u)
    ensures Consistent(Record(u, s, quizType, now))
  {
    var v := Record(u, s, quizType, now);
    var ps := Percentages(v.quizHistory);
    assert ps[..|ps| - 1] == Percentages(u.quizHistory);
  }

  /** A successful stats request keeps every record consistent; a failed one
      changes nothing. */
  lemma PostKeepsConsistent(users: seq<UserDoc>, req: StatsRequest, verify: string -> Option<UserId>, now: int)
    requires forall j :: 0 <= j < |users| ==> Consistent(users[j])
    ensures var after := Post(users, req, verify, now).users;
      forall j :: 0 <= j < |after| ==> Consistent(after[j])
  {
    var o := Post(users, req, verify, now);
    if o.reply.Success? {
      var i := FindById(users, verify(BearerToken(req.authorization).value).value).value;
      var s := ReadSubmission(req.score, req.totalQuestions).value;
      RecordKeepsConsistent(users[i], s, req.quizType, now);
    }
  }

  /** N recorded quizzes give `totalQuizzes == completedQuizzes == N`. */
  lemma {:induction false} ReplayCounts(ps: seq<real>)
    ensures Replay(ps).totalQuizzes == |ps|
    ensures Replay(ps).completedQuizzes == |ps|
  {
    if ps != [] {
      ReplayCounts(ps[..|ps| - 1]);
    }
  }

  /** In a consistent record the quiz counter equals the number of history entries. */
  lemma CounterMatchesHistory(u: UserDoc)
    requires Consistent(u)
    ensures CurrentStats(u).totalQuizzes == |u.quizHistory|
    ensures CurrentStats(u).completedQuizzes == |u.quizHistory|
  {
    ReplayCounts(Percentages(u.quizHistory));
  }

  /** The streak is the length of the final run of percentages of at least 80,
      whatever came before that run. */
  lemma {:induction false} ReplayStreak(ps: seq<real>)
    ensures var k := Replay(ps).streak;
      && k <= |ps|
      && (forall i :: |ps| - k <= i < |ps| ==> ps[i] >= 80.0)
      && (k < |ps| ==> ps[|ps| - 1 - k] < 80.0)
  {
    if ps != [] {
      var init := ps[..|ps| - 1];
      ReplayStreak(init);
      var k := Replay(ps).streak;
      if ps[|ps| - 1] >= 80.0 {
        assert k == Replay(init).streak + 1;
        forall i | |ps| - k <= i < |ps|
          ensures ps[i] >= 80.0
        {
          if i < |ps| - 1 {
            assert ps[i] == init[i];
          }
        }
        if k < |ps| {
          assert ps[|ps| - 1 - k] == init[|init| - 1 - Replay(init).streak];
        }
      }
    }
  }

  function Sum(ps: seq<real>): real {
    if ps == [] then 0.0 else Sum(ps[..|ps| - 1]) + ps[|ps| - 1]
  }

  /** The running average without rounding: the recurrence with exact arithmetic. */
  function ExactAverage(ps: seq<real>): real {
    if ps == [] then 0.0
    else MeanStep(ExactAverage(ps[..|ps| - 1]), |ps| - 1, ps[|ps| - 1])
  }

  /** Without rounding the recurrence is exactly the arithmetic mean: the
      average times the count is the sum. */
  lemma {:induction false} ExactAverageIsMean(ps: seq<real>)
    ensures ExactAverage(ps) * |ps| as real == Sum(ps)
    ensures ps != [] ==> ExactAverage(ps) == Sum(ps) / |ps| as real
  {
    if ps != [] {
      var init := ps[..|ps| - 1];
      ExactAverageIsMean(init);
      var n := |init| as real;
      var a := ExactAverage(init);
      assert ExactAverage(ps) == (a * n + ps[|ps| - 1]) / (n + 1.0);
      assert ExactAverage(ps) * (n + 1.0) == a * n + ps[|ps| - 1];
    }
  }

  /** The stored average drifts from the rounded mean of the history: the
      percentages 50, 51, 50 leave 51 stored, yet their mean 50.33 rounds to 50. */
  lemma RoundedAverageDrifts()
    ensures Replay([50.0, 51.0, 50.0]).avgScore == 51
    ensures RoundHalfUp(Sum([50.0, 51.0, 50.0]) / 3.0) == 50
  {
    var ps := [50.0, 51.0, 50.0];
    assert ps[..2] == [50.0, 51.0] && ps[..2][..1] == [50.0] && ps[..2][..1][..0] == [];
    var s1 := Replay([50.0]);
    assert s1.avgScore == 50;
    var s2 := Replay([50.0, 51.0]);
    assert MeanStep(50.0, 1, 51.0) == 50.5;
    assert s2.avgScore == 51;
    assert MeanStep(51.0, 2, 50.0) == 152.0 / 3.0;
    assert Sum(ps) == 151.0;
  }

  /** Two quizzes on a fresh account: 8 of 10, then 6 of 10. */
  lemma TwoQuizExample()
    ensures Replay([80.0]) == UserStats(80, 1, 1, 1)
    ensures Replay([80.0, 60.0]) == UserStats(70, 0, 2, 2)
    ensures Percentage(Submission(8.0, 10.0)) == 80.0 && Percentage(Submission(6.0, 10.0)) == 60.0
  {
    assert [80.0, 60.0][..1] == [80.0] && [80.0][..0] == [];
    assert MeanStep(0.0, 0, 80.0) == 80.0;
    assert MeanStep(80.0, 1, 60.0) == 70.0;
  }
}
