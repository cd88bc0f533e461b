/**
 * Topic creation (`POST /api/topics/add`): every required field must be
 * truthy, the missing ones reported by label in declared order; then the
 * steps must form a non-empty array of objects that each carry a title and a
 * description; then the title must not be taken; then the document is stored.
 */
module TopicAdd {
  import opened Wrappers
  import opened Text
  import opened Numbers
  import opened Js
  import opened TopicLabel

  /** The keys that must be truthy, in the order they are checked.
      `signImage` is the one optional field. */
  const RequiredFields: seq<string> := [
    "title", "count", "icon", "color", "iconColor", "tag", "mainSignName",
    "description", "steps", "commonMistake", "proTip", "legalNote"]

  /** Destructuring the body throws only for `null` (a JSON body cannot be
      `undefined`, but a missing one is treated alike). */
  predicate Readable(body: Value) {
    !body.Null? && !body.Undefined?
  }

  /** `body[key]`: an object's own entry; a string, number, boolean or array
      body has none of the route's keys. */
  function Field(body: Value, key: string): (v: Value)
    ensures !body.Obj? ==> v == Undefined
  {
    if body.Obj? then Get(body.fields, key) else Undefined
  }

  /** `a` is `b` with some elements left out, order kept. */
  predicate SubsequenceOf(a: seq<string>, b: seq<string>) {
    a == [] || (b != [] && ((a[0] == b[0] && SubsequenceOf(a[1..], b[1..])) || SubsequenceOf(a, b[1..])))
  }

  /** `requiredFields.filter(field => !body[field])`. */
  function Missing(keys: seq<string>, body: Value): (r: seq<string>)
    ensures forall k :: k in r <==> k in keys && !Truthy(Field(body, k))
    ensures SubsequenceOf(r, keys)
  {
    if keys == [] then []
    else
      var rest := Missing(keys[1..], body);
      assert forall k :: k in keys <==> k == keys[0] || k in keys[1..];
      if !Truthy(Field(body, keys[0])) then
        assert ([keys[0]] + rest)[1..] == rest;
        [keys[0]] + rest
      else rest
  }

  /** `signImage` is never reported, whatever the body holds. */
  lemma SignImageNeverReported(body: Value)
    ensures "signImage" !in Missing(RequiredFields, body)
  {
    assert "signImage" !in RequiredFields;
  }

  /** An empty steps array is truthy, so it is not reported missing. */
  lemma EmptyStepsPresent(body: Value)
    requires Field(body, "steps") == Arr([])
    ensures "steps" !in Missing(RequiredFields, body)
  {
  }

  function Labels(keys: seq<string>): (r: seq<string>)
    ensures |r| == |keys| && forall i :: 0 <= i < |keys| ==> r[i] == Label(keys[i])
  {
    seq(|keys|, i requires 0 <= i < |keys| => Label(keys[i]))
  }

  /** What `!steps[i].title || !steps[i].desc` does with one element. */
  datatype StepCheck =
    | Complete
    | Incomplete   // the condition is true
    | Throws       // reading a property of `null` or `undefined`

  function CheckStep(v: Value): (c: StepCheck)
    ensures c.Throws? <==> v.Null? || v.Undefined?
    ensures c.Complete? <==> v.Obj? && Truthy(Get(v.fields, "title")) && Truthy(Get(v.fields, "desc"))
  {
    match v
    case Null => Throws
    case Undefined => Throws
    case Obj(fields) =>
      if Truthy(Get(fields, "title")) && Truthy(Get(fields, "desc")) then Complete else Incomplete
    case _ => Incomplete
  }

  /** Position of the first step that is not complete, or the length: the loop. */
  function FirstIncomplete(steps: seq<Value>): (k: nat)
    ensures k <= |steps|
    ensures forall j :: 0 <= j < k ==> CheckStep(steps[j]).Complete?
    ensures k < |steps| ==> !CheckStep(steps[k]).Complete?
  {
    if steps == [] || !CheckStep(steps[0]).Complete? then 0
    else 1 + FirstIncomplete(steps[1..])
  }

  /** Position `k` holds the first step that is not complete. */
  predicate FirstIncompleteAt(steps: seq<Value>, k: int) {
    && 0 <= k < |steps|
    && !CheckStep(steps[k]).Complete?
    && forall j :: 0 <= j < k ==> CheckStep(steps[j]).Complete?
  }

  datatype TopicError =
    | MissingFields(keys: seq<string>)
    | NoSteps
    | StepIncomplete(position: nat)   // one-based, as in the message
    | DuplicateTitle
    | ServerError

  function Message(e: TopicError): string {
    match e
    case MissingFields(keys) => "Missing required fields: " + Join(Labels(keys), ", ")
    case NoSteps => "At least one step is required."
    case StepIncomplete(i) => "Step " + NatToString(i) + " is missing title or description."
    case DuplicateTitle => "A topic with this title already exists."
    case ServerError => "An unexpected server error occurred."
  }

  /** The reply for an incomplete step names its position: two such replies
      with the same text are about the same step. */
  lemma StepMessageNamesPosition(i: nat, j: nat)
    requires Message(StepIncomplete(i)) == Message(StepIncomplete(j))
    ensures i == j
  {
    FramedNumeralInjective("Step ", " is missing title or description.", i, j);
  }

  /** A taken title is a conflict (409), a thrown error a server error (500),
      and every other refusal a client error (400). */
  function Status(e: TopicError): (code: int)
    ensures code == 409 <==> e.DuplicateTitle?
    ensures code == 500 <==> e.ServerError?
    ensures code == 400 <==> !e.DuplicateTitle? && !e.ServerError?
  {
    match e
    case DuplicateTitle => 409
    case ServerError => 500
    case _ => 400
  }

  /** No required field is falsy. */
  predicate AllPresent(body: Value) {
    forall k :: k in RequiredFields ==> Truthy(Field(body, k))
  }

  predicate StepsNonEmpty(body: Value) {
    Field(body, "steps").Arr? && |Field(body, "steps").items| > 0
  }

  predicate StepsComplete(body: Value) {
    StepsNonEmpty(body) &&
    forall j :: 0 <= j < |Field(body, "steps").items| ==> CheckStep(Field(body, "steps").items[j]).Complete?
  }

  /** The checks before the store is consulted, in source order. */
  function Validate(body: Value): (res: Result<(), TopicError>)
    ensures !Readable(body) ==> res == Failure(ServerError)
    ensures res.Failure? && res.error.MissingFields? <==> Readable(body) && !AllPresent(body)
    ensures res.Failure? && res.error.MissingFields? ==> res.error.keys == Missing(RequiredFields, body)
    ensures res == Failure(NoSteps) <==> Readable(body) && AllPresent(body) && !StepsNonEmpty(body)
    ensures res.Failure? && res.error.StepIncomplete? ==>
      && Readable(body) && AllPresent(body) && StepsNonEmpty(body)
      && var steps := Field(body, "steps").items;
      && 1 <= res.error.position <= |steps|
      && CheckStep(steps[res.error.position - 1]).Incomplete?
      && forall j :: 0 <= j < res.error.position - 1 ==> CheckStep(steps[j]).Complete?
    ensures Readable(body) && AllPresent(body) && StepsNonEmpty(body) ==>
      forall k :: FirstIncompleteAt(Field(body, "steps").items, k) ==>
        res == (if CheckStep(Field(body, "steps").items[k]).Throws? then Failure(ServerError) else Failure(StepIncomplete(k + 1)))
    ensures res.Success? <==> Readable(body) && AllPresent(body) && StepsComplete(body)
    ensures res.Failure? ==> !res.error.DuplicateTitle?
  {
    if !Readable(body) then Failure(ServerError)
    else
      var missing := Missing(RequiredFields, body);
      if |missing| > 0 then
        assert missing[0] in missing;
        Failure(MissingFields(missing))
      else if !StepsNonEmpty(body) then Failure(NoSteps)
      else
        var steps := Field(body, "steps").items;
        var k := FirstIncomplete(steps);
        if k < |steps| then
          if CheckStep(steps[k]).Throws? then Failure(ServerError) else Failure(StepIncomplete(k + 1))
        else Success(())
  }

  /** A stored topic: the body's fields unchanged, `signImage || ""`, and
      both timestamps. */
  datatype TopicDoc = TopicDoc(
    title: Value, count: Value, icon: Value, color: Value, iconColor: Value, tag: Value,
    mainSignName: Value, signImage: Value, description: Value, steps: Value,
    commonMistake: Value, proTip: Value, legalNote: Value,
    createdAt: int, updatedAt: int)

  function Document(body: Value, now: int): (d: TopicDoc)
    ensures d.title == Field(body, "title") && d.count == Field(body, "count") && d.icon == Field(body, "icon")
    ensures d.color == Field(body, "color") && d.iconColor == Field(body, "iconColor") && d.tag == Field(body, "tag")
    ensures d.mainSignName == Field(body, "mainSignName") && d.description == Field(body, "description")
    ensures d.steps == Field(body, "steps") && d.commonMistake == Field(body, "commonMistake")
    ensures d.proTip == Field(body, "proTip") && d.legalNote == Field(body, "legalNote")
    ensures d.signImage == if Truthy(Field(body, "signImage")) then Field(body, "signImage") else Str("")
    ensures Truthy(d.signImage) || d.signImage == Str("")
    ensures d.createdAt == now && d.updatedAt == now
  {
    var signImage := Field(body, "signImage");
    TopicDoc(Field(body, "title"), Field(body, "count"), Field(body, "icon"), Field(body, "color"),
             Field(body, "iconColor"), Field(body, "tag"), Field(body, "mainSignName"),
             if Truthy(signImage) then signImage else Str(""),
             Field(body, "description"), Field(body, "steps"), Field(body, "commonMistake"),
             Field(body, "proTip"), Field(body, "legalNote"), now, now)
  }

  datatype TopicOutcome = TopicOutcome(reply: Result<string, TopicError>, topics: seq<TopicDoc>)

  /** The route. `titleTaken` is the store's answer to the case-insensitive
      lookup of `title`; `newId` is the id the insert assigns. */
  function Post(topics: seq<TopicDoc>, body: Value, titleTaken: bool, newId: string, now: int): (o: TopicOutcome)
    ensures o.reply.Failure? ==> o.topics == topics
    ensures o.reply == Failure(DuplicateTitle) <==> Validate(body).Success? && titleTaken
    ensures o.reply.Failure? && !o.reply.error.DuplicateTitle? ==> Validate(body) == Failure(o.reply.error)
    ensures o.reply.Success? <==> Validate(body).Success? && !titleTaken
    ensures o.reply.Success? ==> o.reply.value == newId && o.topics == topics + [Document(body, now)]
  {
    match Validate(body)
    case Failure(e) => TopicOutcome(Failure(e), topics)
    case Success(_) =>
      if titleTaken then TopicOutcome(Failure(DuplicateTitle), topics)
      else TopicOutcome(Success(newId), topics + [Document(body, now)])
  }
}
