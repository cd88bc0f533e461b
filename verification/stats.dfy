/**
 * The quiz-statistics route (`POST /api/user/stats`): bearer-header check,
 * token verification, body check, then one read-modify-write of the caller's
 * record that updates the running average, the streak and the counters and
 * appends one history entry.
 */
module Stats {
  import opened Wrappers
  import opened Text
  import opened Numbers
  import opened Js
  import opened Users

  const BearerPrefix: string := "Bearer "

  /** The token carried by an `Authorization` header: the header minus the
      exact, case-sensitive prefix "Bearer ", or nothing when there is no header
      or it does not start that way. */
  function BearerToken(header: Option<string>): (r: Option<string>)
    ensures r.Some? <==> header.Some? && StartsWith(header.value, BearerPrefix)
    ensures r.Some? ==> header.value == BearerPrefix + r.value
  {
    if header.Some? && StartsWith(header.value, BearerPrefix) then
      Some(header.value[|BearerPrefix|..])
    else None
  }

  /** A quiz result whose two numbers passed the body check. */
  datatype Submission = Submission(score: real, totalQuestions: real)

  /** The body check as written: `typeof score !== "number" || typeof totalQuestions !== "number"`
      rejects, and nothing else does. */
  predicate BodyAcceptedAsWritten(score: Value, totalQuestions: Value) {
    score.Num? && totalQuestions.Num?
  }

  /** The check lets a zero question count through, and the percentage it then
      computes divides by zero. */
  lemma ZeroQuestionsAccepted()
    ensures BodyAcceptedAsWritten(Num(0.0), Num(0.0))
    ensures BodyAcceptedAsWritten(Num(5.0), Num(0.0))
  {
  }

  /** The body check with the evident intent completed: both fields numbers and
      a non-zero question count, so the percentage is defined. */
  function ReadSubmission(score: Value, totalQuestions: Value): (r: Option<Submission>)
    ensures r.Some? <==> BodyAcceptedAsWritten(score, totalQuestions) && totalQuestions.n != 0.0
    ensures r.Some? ==> r.value.totalQuestions != 0.0
    ensures r.Some? ==> Num(r.value.score) == score && Num(r.value.totalQuestions) == totalQuestions
  {
    if score.Num? && totalQuestions.Num? && totalQuestions.n != 0.0 then
      Some(Submission(score.n, totalQuestions.n))
    else None
  }

  /** `(score / totalQuestions) * 100`: the score as a share of 100. */
  function Percentage(s: Submission): (pct: real)
    requires s.totalQuestions != 0.0
    ensures pct * s.totalQuestions == 100.0 * s.score
    ensures s.totalQuestions > 0.0 && 0.0 <= s.score <= s.totalQuestions ==> 0.0 <= pct <= 100.0
  {
    s.score / s.totalQuestions * 100.0
  }

  /** The exact (unrounded) running average after one more value. */
  function MeanStep(avg: real, n: nat, pct: real): (m: real)
    ensures m * (n + 1) as real == avg * n as real + pct
  {
    (avg * n as real + pct) / (n + 1) as real
  }

  /** One statistics transition for a quiz scored `pct` percent. */
  function NextStats(cur: UserStats, pct: real): (s: UserStats)
    ensures s.totalQuizzes == cur.totalQuizzes + 1
    ensures s.completedQuizzes == cur.completedQuizzes + 1
    ensures pct >= 80.0 ==> s.streak == cur.streak + 1
    ensures pct < 80.0 ==> s.streak == 0
    ensures var exact := MeanStep(cur.avgScore as real, cur.totalQuizzes, pct);
      s.avgScore as real - 0.5 <= exact < s.avgScore as real + 0.5
  {
    var totalQuizzes := cur.totalQuizzes + 1;
    var previousTotal := cur.avgScore as real * cur.totalQuizzes as real;
    var newAvg := (previousTotal + pct) / totalQuizzes as real;
    var newStreak := if pct >= 80.0 then cur.streak + 1 else 0;
    assert newAvg == MeanStep(cur.avgScore as real, cur.totalQuizzes, pct);
    UserStats(RoundHalfUp(newAvg), newStreak, totalQuizzes, cur.completedQuizzes + 1)
  }

  /** The average stays a percentage when the score is within the question count. */
  lemma AverageStaysInRange(cur: UserStats, s: Submission)
    requires 0.0 <= s.score <= s.totalQuestions && s.totalQuestions > 0.0
    requires 0 <= cur.avgScore <= 100
    ensures 0 <= NextStats(cur, Percentage(s)).avgScore <= 100
  {
    var pct := Percentage(s);
    assert 0.0 <= pct <= 100.0 by {
      assert s.score / s.totalQuestions <= 1.0;
    }
    var n := cur.totalQuizzes as real;
    var a := cur.avgScore as real;
    assert 0.0 <= a * n <= 100.0 * n;
    assert 100.0 * (n + 1.0) == 100.0 * n + 100.0;
    QuotientWithin(a * n + pct, n + 1.0);
    assert (cur.totalQuizzes + 1) as real == n + 1.0;
    assert MeanStep(a, cur.totalQuizzes, pct) == (a * n + pct) / (n + 1.0);
    RoundWithin(MeanStep(a, cur.totalQuizzes, pct), 0, 100);
  }

  lemma QuotientWithin(x: real, d: real)
    requires d > 0.0 && 0.0 <= x <= 100.0 * d
    ensures 0.0 <= x / d <= 100.0
  {
    assert x / d * d == x;
  }

  /** What is stored for a missing or falsy `quizType`. */
  const DefaultQuizType: Value := Str("general")

  /** The update the route applies to the caller's record. */
  function Record(u: UserDoc, s: Submission, quizType: Value, now: int): (v: UserDoc)
    requires s.totalQuestions != 0.0
    ensures |v.quizHistory| == |u.quizHistory| + 1
    ensures v.quizHistory[..|u.quizHistory|] == u.quizHistory
    ensures v.quizHistory[|u.quizHistory|] ==
      HistoryEntry(s.score, s.totalQuestions, Percentage(s), if Truthy(quizType) then quizType else DefaultQuizType, now)
    ensures v.stats == Some(NextStats(CurrentStats(u), Percentage(s)))
    ensures v.lastQuizDate == Some(now)
    ensures v.(stats := u.stats, lastQuizDate := u.lastQuizDate, quizHistory := u.quizHistory) == u
  {
    var pct := Percentage(s);
    var entry := HistoryEntry(s.score, s.totalQuestions, pct,
                              if Truthy(quizType) then quizType else DefaultQuizType, now);
    u.(stats := Some(NextStats(CurrentStats(u), pct)),
       lastQuizDate := Some(now),
       quizHistory := u.quizHistory + [entry])
  }

  datatype StatsRequest = StatsRequest(authorization: Option<string>, score: Value, totalQuestions: Value, quizType: Value)

  /** 401, 500 (the token verifier threw), 400, 404. */
  datatype StatsError = Unauthorized | VerificationFailed | InvalidData | UserNotFound

  /** The `stats` object of a 200 response. */
  datatype StatsReply = StatsReply(avgScore: int, streak: nat, totalQuizzes: nat)

  /** The three numbers of the stored statistics the reply carries. */
  function Reported(st: UserStats): (r: StatsReply)
    ensures r.avgScore == st.avgScore && r.streak == st.streak && r.totalQuizzes == st.totalQuizzes
  {
    StatsReply(st.avgScore, st.streak, st.totalQuizzes)
  }

  datatype Outcome = Outcome(reply: Result<StatsReply, StatsError>, users: seq<UserDoc>)

  /** Each refusal has its own HTTP status, and all are error statuses. */
  function Status(e: StatsError): (code: int)
    ensures 400 <= code < 600
    ensures code == 401 <==> e.Unauthorized?
    ensures code == 500 <==> e.VerificationFailed?
    ensures code == 400 <==> e.InvalidData?
    ensures code == 404 <==> e.UserNotFound?
  {
    match e
    case Unauthorized => 401
    case VerificationFailed => 500
    case InvalidData => 400
    case UserNotFound => 404
  }

  /** The route. `verify` stands for the token verifier: the user id in a valid
      token, nothing when verification throws. */
  function Post(users: seq<UserDoc>, req: StatsRequest, verify: string -> Option<UserId>, now: int): (o: Outcome)
    ensures o.reply.Failure? ==> o.users == users
    ensures BearerToken(req.authorization).None? ==> o.reply == Failure(Unauthorized)
    ensures BearerToken(req.authorization).Some? ==>
      var token := BearerToken(req.authorization).value;
      && (verify(token).None? ==> o.reply == Failure(VerificationFailed))
      && (verify(token).Some? && ReadSubmission(req.score, req.totalQuestions).None? ==>
            o.reply == Failure(InvalidData))
      && (verify(token).Some? && ReadSubmission(req.score, req.totalQuestions).Some? ==>
            (o.reply == Failure(UserNotFound) <==> forall j :: 0 <= j < |users| ==> users[j].id != verify(token).value))
    ensures o.reply.Success? <==>
      && BearerToken(req.authorization).Some?
      && verify(BearerToken(req.authorization).value).Some?
      && ReadSubmission(req.score, req.totalQuestions).Some?
      && FindById(users, verify(BearerToken(req.authorization).value).value).Some?
    ensures o.reply.Success? ==>
      var uid := verify(BearerToken(req.authorization).value).value;
      var i := FindById(users, uid).value;
      && Updated(users, o.users, i, req, now)
      && o.users[i].stats.Some?
      && o.reply.value == Reported(o.users[i].stats.value)
  {
    match BearerToken(req.authorization)
    case None => Outcome(Failure(Unauthorized), users)
    case Some(token) =>
      match verify(token)
      case None => Outcome(Failure(VerificationFailed), users)
      case Some(uid) =>
        match ReadSubmission(req.score, req.totalQuestions)
        case None => Outcome(Failure(InvalidData), users)
        case Some(s) =>
          match FindById(users, uid)
          case None => Outcome(Failure(UserNotFound), users)
          case Some(i) =>
            var v := Record(users[i], s, req.quizType, now);
            var st := v.stats.value;
            var o := Outcome(Success(Reported(st)), users[i := v]);
            assert Updated(users, o.users, i, req, now);
            o
  }

  /** `after` is `before` with exactly record `i` updated by the submission in
      `req`. */
  ghost predicate Updated(before: seq<UserDoc>, after: seq<UserDoc>, i: nat, req: StatsRequest, now: int)
    requires i < |before|
  {
    && ReadSubmission(req.score, req.totalQuestions).Some?
    && |after| == |before|
    && after[i] == Record(before[i], ReadSubmission(req.score, req.totalQuestions).value, req.quizType, now)
    && (forall j :: 0 <= j < |before| && j != i ==> after[j] == before[j])
  }

  /** The numbers a 200 response reports are the ones written to the caller's
      record, and they are the statistics transition of what it held before. */
  lemma ReplyMatchesStored(users: seq<UserDoc>, req: StatsRequest, verify: string -> Option<UserId>, now: int)
    requires Post(users, req, verify, now).reply.Success?
    ensures var o := Post(users, req, verify, now);
      var uid := verify(BearerToken(req.authorization).value).value;
      var i := FindById(users, uid).value;
      var s := ReadSubmission(req.score, req.totalQuestions).value;
      && i < |o.users| && o.users[i].id == uid && o.users[i].stats.Some?
      && o.reply.value.avgScore == o.users[i].stats.value.avgScore
      && o.reply.value.streak == o.users[i].stats.value.streak
      && o.reply.value.totalQuizzes == o.users[i].stats.value.totalQuizzes
      && o.users[i].stats.value == NextStats(CurrentStats(users[i]), Percentage(s))
  {
  }
}
