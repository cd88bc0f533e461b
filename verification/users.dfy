/**
 * The `users` collection shared by the register, login and stats routes: the
 * stored record, its statistics and quiz history, and `findOne` as a
 * first-match search in natural order.
 */
module Users {
  import opened Wrappers
  import opened Js

  /** The string form of a document's `_id`. */
  type UserId = string

  /** Aggregate statistics kept on a user record. Every writer stores integers:
      registration stores zeros and the stats route stores `Math.round` of the
      average and counters it increments. */
  datatype UserStats = UserStats(avgScore: int, streak: nat, totalQuizzes: nat, completedQuizzes: nat)

  /** The statistics of a fresh account, also the default for a record without `stats`. */
  const ZeroStats := UserStats(0, 0, 0, 0)

  /** One entry of the append-only quiz history; `quizType` holds whatever
      truthy value the client sent, or "general". */
  datatype HistoryEntry = HistoryEntry(score: real, totalQuestions: real, percentage: real, quizType: Value, date: int)

  datatype Progress = Progress(completedTopics: seq<string>, currentTopic: Option<string>)

  /** A stored user. The password is stored exactly as received, so it may be
      any JSON value that passed the registration checks. */
  datatype UserDoc = UserDoc(
    id: UserId,
    email: string,
    password: Value,
    name: string,
    role: string,
    createdAt: int,
    stats: Option<UserStats>,
    progress: Option<Progress>,
    lastQuizDate: Option<int>,
    quizHistory: seq<HistoryEntry>)

  /** The statistics a route works from: the stored ones or all zeros. */
  function CurrentStats(u: UserDoc): (s: UserStats)
    ensures u.stats.None? ==> s == ZeroStats
    ensures u.stats.Some? ==> s == u.stats.value
  {
    u.stats.GetOr(ZeroStats)
  }

  /** `findOne(filter)`: the position of the first record, in natural order,
      that matches. */
  function FindFirst(users: seq<UserDoc>, matches: UserDoc -> bool): (r: Option<nat>)
    ensures r.Some? ==> r.value < |users| && matches(users[r.value])
    ensures r.Some? ==> forall j :: 0 <= j < r.value ==> !matches(users[j])
    ensures r.None? <==> forall j :: 0 <= j < |users| ==> !matches(users[j])
  {
    if users == [] then None
    else if matches(users[0]) then Some(0)
    else match FindFirst(users[1..], matches)
      case None => None
      case Some(k) => Some(k + 1)
  }

  /** `findOne({ _id })`. */
  function FindById(users: seq<UserDoc>, id: UserId): (r: Option<nat>)
    ensures r.Some? ==> r.value < |users| && users[r.value].id == id
    ensures r.None? <==> forall j :: 0 <= j < |users| ==> users[j].id != id
  {
    FindFirst(users, (u: UserDoc) => u.id == id)
  }
}
