/**
 * Account registration (`POST /api/user/register`): ordered checks (all fields
 * present, e-mail pattern, password length), a uniqueness check on the
 * lower-cased e-mail, then the insertion of a fresh user record.
 */
module Register {
  import opened Wrappers
  import opened Text
  import opened Js
  import opened Users
  import opened Email

  const MinPasswordLength: nat := 6

  datatype RegisterRequest = RegisterRequest(email: Value, password: Value, name: Value)

  datatype RegisterError =
    | FieldsRequired      // 400 "All fields are required"
    | InvalidEmail        // 400 "Invalid email format"
    | PasswordTooShort    // 400 "Password must be at least 6 characters"
    | AlreadyExists       // 409 "User already exists with this email"
    | ServerError         // 500: `name.trim()` on a name that is not a string

  /** The pattern test. A non-string e-mail is taken as failing it: the string
      forms of numbers, booleans and objects have no '@' or contain a space. */
  predicate EmailAccepted(email: Value) {
    email.Str? && MatchesPattern(email.s)
  }

  /** The three checks, in order; on success the validated e-mail text. */
  function Validate(req: RegisterRequest): (r: Result<string, RegisterError>)
    ensures r == Failure(FieldsRequired) <==> !Truthy(req.email) || !Truthy(req.password) || !Truthy(req.name)
    ensures r == Failure(InvalidEmail) <==>
      Truthy(req.email) && Truthy(req.password) && Truthy(req.name) && !EmailAccepted(req.email)
    ensures r == Failure(PasswordTooShort) <==>
      Truthy(req.email) && Truthy(req.password) && Truthy(req.name) && EmailAccepted(req.email)
      && ShorterThan(req.password, MinPasswordLength)
    ensures r.Success? <==>
      Truthy(req.email) && Truthy(req.password) && Truthy(req.name) && EmailAccepted(req.email)
      && !ShorterThan(req.password, MinPasswordLength)
    ensures r.Success? ==> req.email == Str(r.value) && MatchesPattern(r.value)
  {
    if !Truthy(req.email) || !Truthy(req.password) || !Truthy(req.name) then Failure(FieldsRequired)
    else if !EmailAccepted(req.email) then Failure(InvalidEmail)
    else if ShorterThan(req.password, MinPasswordLength) then Failure(PasswordTooShort)
    else Success(req.email.s)
  }

  /** Some stored record already has this (lower-cased) e-mail. */
  predicate EmailTaken(users: seq<UserDoc>, email: string) {
    FindFirst(users, (u: UserDoc) => u.email == email).Some?
  }

  datatype RegisterOutcome = RegisterOutcome(reply: Result<UserId, RegisterError>, users: seq<UserDoc>)

  /** The route. `newId` is the identifier the store assigns to the insert and
      `now` the creation time. */
  function Post(users: seq<UserDoc>, req: RegisterRequest, newId: UserId, now: int): (o: RegisterOutcome)
    requires forall j :: 0 <= j < |users| ==> users[j].id != newId
    ensures o.reply.Failure? ==> o.users == users
    ensures Validate(req).Failure? ==> o.reply == Failure(Validate(req).error)
    ensures Validate(req).Success? ==>
      (o.reply == Failure(AlreadyExists) <==>
         exists j :: 0 <= j < |users| && users[j].email == ToLower(req.email.s))
    ensures o.reply == Failure(ServerError) <==>
      && Validate(req).Success?
      && (forall j :: 0 <= j < |users| ==> users[j].email != ToLower(req.email.s))
      && !req.name.Str?
    ensures o.reply.Success? <==>
      && Validate(req).Success?
      && (forall j :: 0 <= j < |users| ==> users[j].email != ToLower(req.email.s))
      && req.name.Str?
    ensures o.reply.Success? ==>
      && o.reply.value == newId
      && o.users == users + [NewUser(newId, ToLower(req.email.s), req.password, Trim(req.name.s), now)]
  {
    match Validate(req)
    case Failure(e) => RegisterOutcome(Failure(e), users)
    case Success(email) =>
      var lower := ToLower(email);
      if EmailTaken(users, lower) then RegisterOutcome(Failure(AlreadyExists), users)
      else if !req.name.Str? then RegisterOutcome(Failure(ServerError), users)
      else
        var doc := NewUser(newId, lower, req.password, Trim(req.name.s), now);
        RegisterOutcome(Success(newId), users + [doc])
  }

  /** The inserted record: role "user", zero statistics, empty progress and history. */
  function NewUser(id: UserId, email: string, password: Value, name: string, now: int): (u: UserDoc)
    ensures u.id == id && u.email == email && u.password == password && u.name == name
    ensures u.role == "user"
    ensures CurrentStats(u) == ZeroStats && u.stats.Some?
    ensures u.progress == Some(Progress([], None))
    ensures u.quizHistory == [] && u.lastQuizDate.None?
    ensures u.createdAt == now
  {
    UserDoc(id, email, password, name, "user", now, Some(ZeroStats), Some(Progress([], None)), None, [])
  }

  /** A new record stores its e-mail in lower case and its name trimmed. */
  lemma NewRecordNormalised(users: seq<UserDoc>, req: RegisterRequest, newId: UserId, now: int)
    requires forall j :: 0 <= j < |users| ==> users[j].id != newId
    requires Post(users, req, newId, now).reply.Success?
    ensures var u := Post(users, req, newId, now).users[|users|];
      && u.email == ToLower(req.email.s) && ToLower(u.email) == u.email
      && u.name == Trim(req.name.s) && u.name == Trim(u.name)
      && u.role == "user"
  {
    var u := Post(users, req, newId, now).users[|users|];
    ToLowerIdempotent(req.email.s);
    TrimIdempotent(req.name.s);
  }

  /** Two registrations whose e-mails differ only in letter case conflict: once
      the first is stored, the second is refused with 409 and stores nothing. */
  lemma CaseVariantsConflict(users: seq<UserDoc>, first: RegisterRequest, second: RegisterRequest,
                             id1: UserId, id2: UserId, now: int)
    requires forall j :: 0 <= j < |users| ==> users[j].id != id1
    requires Post(users, first, id1, now).reply.Success?
    requires Validate(second).Success?
    requires ToLower(second.email.s) == ToLower(first.email.s)
    requires id2 != id1 && forall j :: 0 <= j < |users| ==> users[j].id != id2
    ensures var after := Post(users, first, id1, now).users;
      Post(after, second, id2, now) == RegisterOutcome(Failure(AlreadyExists), after)
  {
    var after := Post(users, first, id1, now).users;
    assert after[|users|].email == ToLower(second.email.s);
  }

  /** An object password whose `length` entry is null converts to length 0,
      so it is refused as too short rather than stored. */
  lemma NullLengthPasswordRefused(users: seq<UserDoc>, newId: UserId, now: int)
    requires forall j :: 0 <= j < |users| ==> users[j].id != newId
    ensures var req := RegisterRequest(Str("a@b.co"), Obj(map["length" := Null]), Str("Ann"));
      && Validate(req) == Failure(PasswordTooShort)
      && Post(users, req, newId, now) == RegisterOutcome(Failure(PasswordTooShort), users)
  {
    Email.Examples();
    ZeroLikeLengthsAreShort(Null, MinPasswordLength);
  }
}
