/**
 * Mobile-client login (`POST /api/user/login`): both fields present, a lookup
 * by lower-cased e-mail restricted to role "user", a plain equality test on the
 * password, and a reply carrying a token and the stored statistics. Signing is
 * abstracted: the reply carries the token's payload.
 */
module Login {
  import opened Wrappers
  import opened Text
  import opened Js
  import opened Users

  const UserRole: string := "user"

  datatype LoginRequest = LoginRequest(email: Value, password: Value)

  /** What the signed token carries. */
  datatype TokenPayload = TokenPayload(userId: UserId, email: string, role: string)

  datatype LoginReply = LoginReply(token: TokenPayload, id: UserId, email: string, name: string, stats: UserStats)

  datatype LoginError =
    | CredentialsRequired   // 400 "Email and password are required"
    | InvalidCredentials    // 401 "Invalid email or password", for both causes
    | ServerError           // 500: `email.toLowerCase()` on a non-string

  /** The lookup filter `{ email: lower, role: "user" }`. */
  predicate Matches(u: UserDoc, lower: string) {
    u.email == lower && u.role == UserRole
  }

  function FindLogin(users: seq<UserDoc>, lower: string): (r: Option<nat>)
    ensures r.Some? ==> r.value < |users| && Matches(users[r.value], lower)
    ensures r.Some? ==> forall j :: 0 <= j < r.value ==> !Matches(users[j], lower)
    ensures r.None? <==> forall j :: 0 <= j < |users| ==> !Matches(users[j], lower)
  {
    FindFirst(users, (u: UserDoc) => Matches(u, lower))
  }

  function Post(users: seq<UserDoc>, req: LoginRequest): (r: Result<LoginReply, LoginError>)
    ensures r == Failure(CredentialsRequired) <==> !Truthy(req.email) || !Truthy(req.password)
    ensures r == Failure(ServerError) <==> Truthy(req.email) && Truthy(req.password) && !req.email.Str?
    ensures r == Failure(InvalidCredentials) <==>
      && Truthy(req.email) && Truthy(req.password) && req.email.Str?
      && var found := FindLogin(users, ToLower(req.email.s));
         found.None? || !StrictEquals(req.password, users[found.value].password)
    ensures r.Success? ==>
      && req.email.Str?
      && var i := FindLogin(users, ToLower(req.email.s)).value;
      && users[i].email == ToLower(req.email.s)
      && users[i].role == UserRole
      && StrictEquals(req.password, users[i].password)
      && r.value.token == TokenPayload(users[i].id, users[i].email, users[i].role)
      && r.value.id == users[i].id
      && r.value.email == users[i].email && r.value.name == users[i].name
      && r.value.stats == CurrentStats(users[i])
  {
    if !Truthy(req.email) || !Truthy(req.password) then Failure(CredentialsRequired)
    else if !req.email.Str? then Failure(ServerError)
    else
      match FindLogin(users, ToLower(req.email.s))
      case None => Failure(InvalidCredentials)
      case Some(i) =>
        var u := users[i];
        if !StrictEquals(req.password, u.password) then Failure(InvalidCredentials)
        else Success(LoginReply(TokenPayload(u.id, u.email, u.role), u.id, u.email, u.name, CurrentStats(u)))
  }

  /** Records with any other role never log in here, whatever the password. */
  lemma OtherRolesRejected(users: seq<UserDoc>, req: LoginRequest)
    requires req.email.Str?
    requires forall j :: 0 <= j < |users| && users[j].email == ToLower(req.email.s) ==> users[j].role != UserRole
    ensures Post(users, req).Failure?
  {
  }

  /** An unknown e-mail and a wrong password are indistinguishable: adding, for
      the requested e-mail, a record whose password differs does not change the
      reply. */
  lemma UnknownAndWrongPasswordAlike(users: seq<UserDoc>, req: LoginRequest, stored: UserDoc)
    requires Truthy(req.email) && Truthy(req.password) && req.email.Str?
    requires FindLogin(users, ToLower(req.email.s)).None?
    requires Matches(stored, ToLower(req.email.s))
    requires !StrictEquals(req.password, stored.password)
    ensures Post(users, req) == Post(users + [stored], req) == Failure(InvalidCredentials)
  {
    var lower := ToLower(req.email.s);
    var after := users + [stored];
    assert forall j :: 0 <= j < |users| ==> after[j] == users[j] && !Matches(after[j], lower);
    assert Matches(after[|users|], lower);
    var r := FindLogin(after, lower);
    assert r.Some?;
    assert r.value == |users|;
  }

  /** A password that is an array or an object never equals the stored one, so
      such a request never logs in. */
  lemma StructuredPasswordNeverMatches(users: seq<UserDoc>, req: LoginRequest)
    requires req.password.Arr? || req.password.Obj?
    ensures Post(users, req).Failure?
  {
  }
}
