/**
 * Quiz creation (`POST /api/quiz/add`): six checks run in a fixed order, the
 * first failing one deciding the message, then a trimmed document is built and
 * appended to the collection.
 */
module QuizAdd {
  import opened Wrappers
  import opened Text
  import opened Numbers
  import opened Js
  import opened Quizzes

  const OptionCount: nat := 4

  datatype QuizRequest = QuizRequest(
    question: Value,
    options: Value,
    correctAnswerIndex: Value,
    explanation: Value,
    category: Value,
    imageUrl: Value)

  datatype QuizError =
    | QuestionRequired
    | ExactlyFourOptions
    | OptionEmpty(position: nat)   // one-based, as in the message
    | BadAnswerIndex
    | ExplanationRequired
    | BadCategory
    | ServerError                  // a `.trim()` on something that is not a string

  function Message(e: QuizError): string {
    match e
    case QuestionRequired => "Question is required."
    case ExactlyFourOptions => "Exactly 4 options are required."
    case OptionEmpty(i) => "Option " + NatToString(i) + " cannot be empty."
    case BadAnswerIndex => "Correct answer index must be 0, 1, 2, or 3."
    case ExplanationRequired => "Explanation is required."
    case BadCategory => "Category must be either '" + Quizzes.TrafficSigns + "' or '" + RulesOfRoad + "'."
    case ServerError => "An unexpected server error occurred."
  }

  /** The reply for an empty option names its position: two such replies
      with the same text are about the same option. */
  lemma OptionMessageNamesPosition(i: nat, j: nat)
    requires Message(OptionEmpty(i)) == Message(OptionEmpty(j))
    ensures i == j
  {
    FramedNumeralInjective("Option ", " cannot be empty.", i, j);
  }

  /** Every refused check is a client error (400); only a thrown `TypeError`
      is a server error (500). */
  function Status(e: QuizError): (code: int)
    ensures code == 400 || code == 500
    ensures code == 500 <==> e.ServerError?
  {
    if e.ServerError? then 500 else 400
  }

  /** Position of the first option that is not a non-blank string, or the
      length when there is none: the loop over the options. */
  function FirstUnfilled(opts: seq<Value>): (k: nat)
    ensures k <= |opts|
    ensures forall j :: 0 <= j < k ==> Filled(opts[j])
    ensures k < |opts| ==> !Filled(opts[k])
  {
    if opts == [] || !Filled(opts[0]) then 0
    else 1 + FirstUnfilled(opts[1..])
  }

  /** Position `k` holds the first option that is not a non-blank string. */
  predicate FirstGapAt(opts: seq<Value>, k: int) {
    && 0 <= k < |opts|
    && !Filled(opts[k])
    && forall j :: 0 <= j < k ==> Filled(opts[j])
  }

  // The individual checks, each as the source states its success.

  predicate QuestionOk(r: QuizRequest) { Filled(r.question) }

  predicate FourOptions(r: QuizRequest) { r.options.Arr? && |r.options.items| == OptionCount }

  predicate OptionsFilled(r: QuizRequest) {
    FourOptions(r) && forall j :: 0 <= j < OptionCount ==> Filled(r.options.items[j])
  }

  /** A number in the closed range [0, 3]; fractions are not refused. */
  predicate AnswerIndexOk(r: QuizRequest) {
    r.correctAnswerIndex.Num? && 0.0 <= r.correctAnswerIndex.n <= 3.0
  }

  predicate ExplanationOk(r: QuizRequest) { Filled(r.explanation) }

  predicate CategoryOk(r: QuizRequest) { r.category.Str? && KnownCategory(r.category.s) }

  /** `imageUrl?.trim()` does not throw: the value is absent, null or a string. */
  predicate ImageUrlUsable(r: QuizRequest) {
    r.imageUrl.Undefined? || r.imageUrl.Null? || r.imageUrl.Str?
  }

  /** The document's content before the store adds its id and timestamps. */
  datatype Draft = Draft(question: string, options: seq<string>, correctAnswerIndex: real,
                         explanation: string, category: string, imageUrl: string)

  /** `options.map(opt => opt.trim())` once every option is known to be filled. */
  function TrimAll(opts: seq<Value>): (r: seq<string>)
    requires forall j :: 0 <= j < |opts| ==> Filled(opts[j])
    ensures |r| == |opts|
    ensures forall j :: 0 <= j < |opts| ==> opts[j].Str? && r[j] == Trim(opts[j].s) && r[j] != []
  {
    assert forall j :: 0 <= j < |opts| ==> Filled(opts[j]) && opts[j].Str? && !AllSpace(opts[j].s);
    seq(|opts|, j requires 0 <= j < |opts| && opts[j].Str? => Trim(opts[j].s))
  }

  /** Checks 2 and 3: exactly four options, then the first unfilled one by position. */
  function CheckOptions(r: QuizRequest): (res: Result<seq<string>, QuizError>)
    ensures res == Failure(ExactlyFourOptions) <==> !FourOptions(r)
    ensures res.Failure? && res.error.OptionEmpty? ==>
      && FourOptions(r) && 1 <= res.error.position <= OptionCount
      && FirstGapAt(r.options.items, res.error.position - 1)
      && ReadText(r.options.items[res.error.position - 1]).Blank?
    ensures res == Failure(ServerError) ==>
      FourOptions(r) && exists k :: FirstGapAt(r.options.items, k) && ReadText(r.options.items[k]).NotText?
    ensures FourOptions(r) ==> forall k :: FirstGapAt(r.options.items, k) ==>
      res == (if ReadText(r.options.items[k]).Blank? then Failure(OptionEmpty(k + 1)) else Failure(ServerError))
    ensures res.Success? <==> OptionsFilled(r)
    ensures res.Success? ==>
      && |res.value| == OptionCount
      && forall j :: 0 <= j < OptionCount ==>
           r.options.items[j].Str? && res.value[j] == Trim(r.options.items[j].s) && res.value[j] != []
    ensures res.Failure? ==> res.error.ExactlyFourOptions? || res.error.OptionEmpty? || res.error.ServerError?
  {
    if !FourOptions(r) then Failure(ExactlyFourOptions)
    else
      var opts := r.options.items;
      var k := FirstUnfilled(opts);
      if k < OptionCount then
        if ReadText(opts[k]).Blank? then Failure(OptionEmpty(k + 1)) else Failure(ServerError)
      else
        Success(TrimAll(opts))
  }

  /** Checks 4 to 6 and the image URL: answer index, explanation, category. */
  function CheckDetails(r: QuizRequest): (res: Result<(string, string), QuizError>)
    ensures res == Failure(BadAnswerIndex) <==> !AnswerIndexOk(r)
    ensures res == Failure(ExplanationRequired) <==> AnswerIndexOk(r) && ReadText(r.explanation).Blank?
    ensures res == Failure(BadCategory) <==> AnswerIndexOk(r) && ExplanationOk(r) && !CategoryOk(r)
    ensures res.Success? <==> AnswerIndexOk(r) && ExplanationOk(r) && CategoryOk(r) && ImageUrlUsable(r)
    ensures AnswerIndexOk(r) && ReadText(r.explanation).NotText? ==> res == Failure(ServerError)
    ensures AnswerIndexOk(r) && ExplanationOk(r) && CategoryOk(r) && !ImageUrlUsable(r) ==> res == Failure(ServerError)
    ensures res.Success? ==>
      && res.value.0 == Trim(r.explanation.s) && res.value.0 != []
      && res.value.1 == (if r.imageUrl.Str? then Trim(r.imageUrl.s) else "")
    ensures res.Failure? ==>
      res.error.BadAnswerIndex? || res.error.ExplanationRequired? || res.error.BadCategory? || res.error.ServerError?
  {
    if !AnswerIndexOk(r) then Failure(BadAnswerIndex)
    else
      match ReadText(r.explanation)
      case Blank => Failure(ExplanationRequired)
      case NotText => Failure(ServerError)
      case Text(explanation) =>
        if !CategoryOk(r) then Failure(BadCategory)
        else if !ImageUrlUsable(r) then Failure(ServerError)
        else Success((explanation, if r.imageUrl.Str? then Trim(r.imageUrl.s) else ""))
  }

  /** All checks in source order; the first failure decides the reply. */
  function Validate(r: QuizRequest): (res: Result<Draft, QuizError>)
    ensures res == Failure(QuestionRequired) <==> ReadText(r.question).Blank?
    ensures ReadText(r.question).NotText? ==> res == Failure(ServerError)
    ensures QuestionOk(r) ==> (res == Failure(ExactlyFourOptions) <==> !FourOptions(r))
    ensures res.Failure? && res.error.OptionEmpty? ==>
      && QuestionOk(r) && FourOptions(r) && 1 <= res.error.position <= OptionCount
      && FirstGapAt(r.options.items, res.error.position - 1)
      && ReadText(r.options.items[res.error.position - 1]).Blank?
    ensures QuestionOk(r) && FourOptions(r) ==> forall k :: FirstGapAt(r.options.items, k) ==>
      res == (if ReadText(r.options.items[k]).Blank? then Failure(OptionEmpty(k + 1)) else Failure(ServerError))
    ensures res == Failure(BadAnswerIndex) <==> QuestionOk(r) && OptionsFilled(r) && !AnswerIndexOk(r)
    ensures res == Failure(ExplanationRequired) <==>
      QuestionOk(r) && OptionsFilled(r) && AnswerIndexOk(r) && ReadText(r.explanation).Blank?
    ensures res == Failure(BadCategory) <==>
      QuestionOk(r) && OptionsFilled(r) && AnswerIndexOk(r) && ExplanationOk(r) && !CategoryOk(r)
    ensures QuestionOk(r) && OptionsFilled(r) && AnswerIndexOk(r) && ReadText(r.explanation).NotText? ==>
      res == Failure(ServerError)
    ensures QuestionOk(r) && OptionsFilled(r) && AnswerIndexOk(r) && ExplanationOk(r) && CategoryOk(r) && !ImageUrlUsable(r) ==>
      res == Failure(ServerError)
    ensures res.Success? <==>
      QuestionOk(r) && OptionsFilled(r) && AnswerIndexOk(r) && ExplanationOk(r) && CategoryOk(r) && ImageUrlUsable(r)
    ensures res.Success? ==>
      && res.value.question == Trim(r.question.s) && res.value.question != []
      && |res.value.options| == OptionCount
      && (forall j :: 0 <= j < OptionCount ==>
            r.options.items[j].Str? && res.value.options[j] == Trim(r.options.items[j].s) && res.value.options[j] != [])
      && Num(res.value.correctAnswerIndex) == r.correctAnswerIndex
      && res.value.explanation == Trim(r.explanation.s) && res.value.explanation != []
      && Str(res.value.category) == r.category
      && res.value.imageUrl == (if r.imageUrl.Str? then Trim(r.imageUrl.s) else "")
  {
    match ReadText(r.question)
    case Blank => Failure(QuestionRequired)
    case NotText => Failure(ServerError)
    case Text(question) =>
      match CheckOptions(r)
      case Failure(e) => Failure(e)
      case Success(options) =>
        match CheckDetails(r)
        case Failure(e) => Failure(e)
        case Success(details) =>
          Success(Draft(question, options, r.correctAnswerIndex.n, details.0, r.category.s, details.1))
  }

  datatype AddOutcome = AddOutcome(reply: Result<QuizId, QuizError>, quizzes: seq<QuizDoc>)

  /** The stored document: the checked content, the store-assigned id, both
      timestamps set to `now`, and `isActive` set. */
  function Document(d: Draft, id: QuizId, now: int): (q: QuizDoc)
    ensures q.id == id && q.isActive && q.createdAt == now && q.updatedAt == now
    ensures q.question == d.question && q.options == d.options && q.explanation == d.explanation
    ensures q.category == d.category && q.imageUrl == Some(d.imageUrl)
    ensures Num(q.correctAnswerIndex) == Num(d.correctAnswerIndex)
  {
    QuizDoc(id, d.question, d.options, d.correctAnswerIndex, d.explanation, d.category, Some(d.imageUrl), now, now, true)
  }

  /** The route: validate, then append the document; a refused request leaves
      the collection as it was. */
  function Post(quizzes: seq<QuizDoc>, r: QuizRequest, newId: QuizId, now: int): (o: AddOutcome)
    ensures o.reply.Failure? ==> o.quizzes == quizzes && Validate(r) == Failure(o.reply.error)
    ensures o.reply.Success? ==>
      && Validate(r).Success?
      && o.reply.value == newId
      && o.quizzes == quizzes + [Document(Validate(r).value, newId, now)]
  {
    var v := Validate(r);
    if v.Failure? then AddOutcome(Failure(v.error), quizzes)
    else AddOutcome(Success(newId), quizzes + [Document(v.value, newId, now)])
  }

  /** A request that passes every check, used by the examples below. */
  function SampleRequest(index: Value): QuizRequest {
    QuizRequest(Str("Stop?"), Arr([Str("a"), Str(" b "), Str("c"), Str("d")]), index,
                Str("Because."), Str("traffic_signs"), Undefined)
  }

  /** A string with a character that is not white space is a filled field. */
  lemma FilledText(s: string, i: nat)
    requires i < |s| && !IsSpace(s[i])
    ensures Filled(Str(s))
  {
  }

  /** The sample's four options are filled. */
  lemma SampleOptionsFilled(index: Value)
    ensures OptionsFilled(SampleRequest(index))
  {
    FilledText("a", 0);
    FilledText(" b ", 1);
    FilledText("c", 0);
    FilledText("d", 0);
  }

  /** The sample's question and explanation are filled. */
  lemma SampleTextFilled(index: Value)
    ensures QuestionOk(SampleRequest(index)) && ExplanationOk(SampleRequest(index))
  {
    FilledText("Stop?", 0);
    FilledText("Because.", 0);
  }

  /** A fractional answer index such as 1.5 passes the range check. */
  lemma FractionalIndexAccepted()
    ensures Validate(SampleRequest(Num(1.5))).Success?
  {
    SampleOptionsFilled(Num(1.5));
    SampleTextFilled(Num(1.5));
  }

  /** An index of 4 is refused once the earlier checks pass. */
  lemma IndexFourRefused()
    ensures Validate(SampleRequest(Num(4.0))) == Failure(BadAnswerIndex)
  {
    SampleOptionsFilled(Num(4.0));
    SampleTextFilled(Num(4.0));
  }

  /** A blank option is reported by its one-based position; the empty option
      after it is not reached. */
  lemma BlankOptionPosition()
    ensures var r := SampleRequest(Num(0.0)).(options := Arr([Str("a"), Str("  "), Str(""), Str("d")]));
      Validate(r) == Failure(OptionEmpty(2))
  {
    var r := SampleRequest(Num(0.0)).(options := Arr([Str("a"), Str("  "), Str(""), Str("d")]));
    SampleTextFilled(Num(0.0));
    assert QuestionOk(r);
    FilledText("a", 0);
    assert ReadText(r.options.items[1]).Blank?;
    assert FirstUnfilled(r.options.items) == 1;
  }
}
